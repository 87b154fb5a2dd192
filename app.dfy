/** The application state controller (App.tsx): the component's state fields and the
    handlers that change them. Service replies, the confirmation answer and the
    browser's local storage are inputs. */
module App {
  import opened Types
  import opened SheetService
  import opened CourseList

  datatype ToastKind = SuccessToast | ErrorToast

  /** `ToastMessage`: the transient notification. */
  datatype Toast = Toast(kind: ToastKind, message: string)

  /** The local-storage key the operator's e-mail is kept under. */
  const EmailKey := "userEmail"

  const MissingOperatorMessage := "E-mail do operador não encontrado. Por favor, identifique-se."
  const UpdatedMessage := "Curso atualizado com sucesso!"
  const AddedMessage := "Curso adicionado com sucesso!"
  const DeletedMessage := "Curso excluído com sucesso!"

  /** JavaScript truthiness of a `string | null`: the only falsy values of that type
      are `null` and `''`, so any other string, white space included, is truthy. */
  predicate Truthy(s: Option<string>): (r: bool)
    ensures !r <==> s == None || s == Some("")
    ensures r ==> |s.value| > 0
  {
    s.Some? && s.value != ""
  }

  class Controller {
    var courses: seq<Course>
    var isLoading: bool
    var error: Option<string>
    var isModalOpen: bool
    var editingCourse: Option<Course>
    var toast: Option<Toast>
    var userEmail: Option<string>
    var isEmailModalOpen: bool
    /** The browser's `localStorage`. */
    var storage: map<string, string>

    /** The initial `useState` values, over the storage the browser holds. */
    constructor (storage: map<string, string>)
      ensures this.storage == storage
      ensures courses == [] && isLoading && error == None
      ensures !isModalOpen && editingCourse == None && toast == None
      ensures userEmail == None && !isEmailModalOpen
    {
      this.storage := storage;
      courses := [];
      isLoading := true;
      error := None;
      isModalOpen := false;
      editingCourse := None;
      toast := None;
      userEmail := None;
      isEmailModalOpen := false;
    }

    /** The mount effect: a saved (non-empty) e-mail identifies the operator; otherwise
        the e-mail dialog opens and loading stops. */
    method LoadSavedEmail()
      modifies this
      ensures var saved := if EmailKey in storage then Some(storage[EmailKey]) else None;
              if Truthy(saved) then
                userEmail == saved && isEmailModalOpen == old(isEmailModalOpen) && isLoading == old(isLoading)
              else
                userEmail == old(userEmail) && isEmailModalOpen && !isLoading
      ensures courses == old(courses) && error == old(error) && toast == old(toast)
      ensures isModalOpen == old(isModalOpen) && editingCourse == old(editingCourse)
      ensures storage == old(storage)
    {
      var saved := if EmailKey in storage then Some(storage[EmailKey]) else None;
      if Truthy(saved) {
        userEmail := saved;
      } else {
        isEmailModalOpen := true;
        isLoading := false;
      }
    }

    /** `fetchCourses`: on success the list is the store's, newest first; on failure the
        list is kept and the message is shown. Loading stops either way. */
    method FetchCourses(response: Response<seq<Course>>)
      modifies this
      ensures !isLoading
      ensures match HandleResponse(response)
              case Success(data) =>
                NewestFirst(courses) && multiset(courses) == multiset(data)
                && error == None && toast == old(toast)
              case Failure(e) =>
                courses == old(courses) && error == Some(Message(e))
                && toast == Some(Toast(ErrorToast, Message(e)))
      ensures isModalOpen == old(isModalOpen) && editingCourse == old(editingCourse)
      ensures userEmail == old(userEmail) && isEmailModalOpen == old(isEmailModalOpen)
      ensures storage == old(storage)
    {
      isLoading := true;
      error := None;
      var listed := GetCourses(response);
      match listed {
        case Success(data) =>
          courses := data;
        case Failure(e) =>
          error := Some(Message(e));
          toast := Some(Toast(ErrorToast, Message(e)));
      }
      isLoading := false;
    }

    /** The effect that loads the list once the operator is identified. */
    method OnUserEmailChange(response: Response<seq<Course>>)
      modifies this
      ensures !Truthy(userEmail) ==>
                courses == old(courses) && isLoading == old(isLoading) && error == old(error) && toast == old(toast)
      ensures Truthy(userEmail) ==> !isLoading
      ensures Truthy(userEmail) ==>
                match HandleResponse(response)
                case Success(data) =>
                  NewestFirst(courses) && multiset(courses) == multiset(data)
                  && error == None && toast == old(toast)
                case Failure(e) =>
                  courses == old(courses) && error == Some(Message(e))
                  && toast == Some(Toast(ErrorToast, Message(e)))
      ensures isModalOpen == old(isModalOpen) && editingCourse == old(editingCourse)
      ensures userEmail == old(userEmail) && isEmailModalOpen == old(isEmailModalOpen)
      ensures storage == old(storage)
    {
      if Truthy(userEmail) {
        FetchCourses(response);
      }
    }

    /** `handleOpenModal`: opens the course dialog, editing `course` if one is given. */
    method OpenModal(course: Option<Course>)
      modifies this`editingCourse, this`isModalOpen
      ensures editingCourse == course && isModalOpen
    {
      editingCourse := course;
      isModalOpen := true;
    }

    /** `handleCloseModal`. */
    method CloseModal()
      modifies this`editingCourse, this`isModalOpen
      ensures editingCourse == None && !isModalOpen
    {
      editingCourse := None;
      isModalOpen := false;
    }

    /** `handleSaveEmail`: identifies the operator, remembers the e-mail and closes the dialog. */
    method SaveEmail(email: string)
      modifies this`userEmail, this`storage, this`isEmailModalOpen
      ensures userEmail == Some(email)
      ensures storage == old(storage)[EmailKey := email]
      ensures !isEmailModalOpen
    {
      userEmail := Some(email);
      storage := storage[EmailKey := email];
      isEmailModalOpen := false;
    }

    /** `handleSaveCourse`: with no operator, asks for one and sends nothing. Otherwise
        updates the record being edited or creates a new one (without the e-mail); on
        success the list takes the reply and the dialog closes, on failure the list is
        kept and the error is shown. Returns the payload sent, if any. */
    method SaveCourse(courseData: CourseFields, response: Response<Course>) returns (sent: Option<Payload>)
      modifies this
      ensures !Truthy(old(userEmail)) ==>
                && sent == None
                && courses == old(courses) && error == old(error)
                && toast == Some(Toast(ErrorToast, MissingOperatorMessage))
                && isEmailModalOpen
                && isModalOpen == old(isModalOpen) && editingCourse == old(editingCourse)
      ensures Truthy(old(userEmail)) ==>
                && sent == Some(match old(editingCourse)
                                case Some(c) => UpdatePayload(c.id, courseData)
                                case None => CreatePayload(courseData))
                && isEmailModalOpen == old(isEmailModalOpen)
      ensures Truthy(old(userEmail)) ==>
                match HandleResponse(response)
                case Success(saved) =>
                  && courses == (if old(editingCourse).Some? then ReplaceById(old(courses), saved)
                                 else Prepend(saved, old(courses)))
                  && toast == Some(Toast(SuccessToast, if old(editingCourse).Some? then UpdatedMessage else AddedMessage))
                  && error == old(error)
                  && editingCourse == None && !isModalOpen
                case Failure(e) =>
                  && courses == old(courses)
                  && error == Some(Message(e)) && toast == Some(Toast(ErrorToast, Message(e)))
                  && editingCourse == old(editingCourse) && isModalOpen == old(isModalOpen)
      ensures userEmail == old(userEmail) && storage == old(storage) && isLoading == old(isLoading)
    {
      if !Truthy(userEmail) {
        toast := Some(Toast(ErrorToast, MissingOperatorMessage));
        isEmailModalOpen := true;
        return None;
      }
      var call: Call<Course>;
      match editingCourse {
        case Some(c) =>
          call := UpdateCourse(c.id, courseData, response);
          if call.outcome.Success? {
            courses := ReplaceById(courses, call.outcome.value);
            toast := Some(Toast(SuccessToast, UpdatedMessage));
          }
        case None =>
          call := AddCourse(courseData, response);
          if call.outcome.Success? {
            courses := Prepend(call.outcome.value, courses);
            toast := Some(Toast(SuccessToast, AddedMessage));
          }
      }
      match call.outcome {
        case Success(_) =>
          CloseModal();
        case Failure(e) =>
          error := Some(Message(e));
          toast := Some(Toast(ErrorToast, Message(e)));
      }
      sent := Some(call.request);
    }

    /** `handleDeleteCourse`: nothing happens unless the operator confirms; then the
        course leaves the list if the store confirms the deletion, and otherwise the list
        is kept and the error is shown. Returns the payload sent, if any. */
    method DeleteCourse<D>(id: string, confirmed: bool, response: Response<D>) returns (sent: Option<Payload>)
      modifies this
      ensures !confirmed ==> sent == None && unchanged(this)
      ensures confirmed ==> sent == Some(DeletePayload(id))
      ensures confirmed ==>
                match HandleResponse(response)
                case Success(_) =>
                  courses == RemoveById(old(courses), id)
                  && toast == Some(Toast(SuccessToast, DeletedMessage)) && error == old(error)
                case Failure(e) =>
                  courses == old(courses)
                  && error == Some(Message(e)) && toast == Some(Toast(ErrorToast, Message(e)))
      ensures isLoading == old(isLoading) && isModalOpen == old(isModalOpen) && editingCourse == old(editingCourse)
      ensures userEmail == old(userEmail) && isEmailModalOpen == old(isEmailModalOpen)
      ensures storage == old(storage)
    {
      if !confirmed {
        return None;
      }
      var call := SheetService.DeleteCourse(id, response);
      match call.outcome {
        case Success(_) =>
          courses := RemoveById(courses, id);
          toast := Some(Toast(SuccessToast, DeletedMessage));
        case Failure(e) =>
          error := Some(Message(e));
          toast := Some(Toast(ErrorToast, Message(e)));
      }
      sent := Some(call.request);
    }
  }
}
