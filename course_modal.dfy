/** The add/edit course dialog (components/CourseModal.tsx): its form state, the
    initialisation from the course being edited, and the submit check. */
module CourseModal {
  import opened Types
  import opened JsString

  const DescriptionRequired := "A descrição é obrigatória."

  /** The submit check: a blank description (after trim) is refused with the message;
      otherwise the payload carries the description as typed and both flags. */
  function CheckCourse(description: string, isSecurity: bool, isUdemy: bool): (r: Result<CourseFields, string>)
    ensures r.Failure? <==> AllWhitespace(description)
    ensures r.Failure? ==> r.error == DescriptionRequired
    ensures r.Success? ==> r.value.description == description
    ensures r.Success? ==> r.value.isSecurity == isSecurity && r.value.isUdemy == isUdemy
  {
    if IsBlank(description) then Failure(DescriptionRequired)
    else Success(CourseFields(description, isSecurity, isUdemy))
  }

  /** The fields the dialog opens with: those of the course being edited, or the
      defaults (empty description, both flags off). */
  function InitialFields(course: Option<Course>): (f: CourseFields)
    ensures course.Some? ==> f == FieldsOf(course.value)
    ensures course.None? ==> f.description == "" && !f.isSecurity && !f.isUdemy
  {
    match course
    case Some(c) => FieldsOf(c)
    case None => CourseFields("", false, false)
  }

  /** Submitting an edit dialog without touching it sends back the record's own fields,
      unless its description is blank. */
  lemma UntouchedEditResubmits(c: Course)
    requires !AllWhitespace(c.description)
    ensures var f := InitialFields(Some(c));
            CheckCourse(f.description, f.isSecurity, f.isUdemy) == Success(FieldsOf(c))
  {
  }

  /** A new-course dialog cannot be submitted before a description is typed. */
  lemma FreshAddIsRefused()
    ensures var f := InitialFields(None);
            CheckCourse(f.description, f.isSecurity, f.isUdemy) == Failure(DescriptionRequired)
  {
  }

  class CourseForm {
    var description: string
    var isSecurity: bool
    var isUdemy: bool
    var error: string

    /** Mounting: the `useState` defaults, then the effect that copies the course being
        edited, if any. */
    constructor (course: Option<Course>)
      ensures CourseFields(description, isSecurity, isUdemy) == InitialFields(course)
      ensures error == ""
    {
      description := "";
      isSecurity := false;
      isUdemy := false;
      error := "";
      new;
      CourseChanged(course);
    }

    /** The effect on `[course]`: a present course overwrites the three fields; an absent
        one leaves them as they are. */
    method CourseChanged(course: Option<Course>)
      modifies this`description, this`isSecurity, this`isUdemy
      ensures course.Some? ==> CourseFields(description, isSecurity, isUdemy) == FieldsOf(course.value)
      ensures course.None? ==>
                description == old(description) && isSecurity == old(isSecurity) && isUdemy == old(isUdemy)
    {
      match course {
        case Some(c) =>
          description := c.description;
          isSecurity := c.isSecurity;
          isUdemy := c.isUdemy;
        case None =>
      }
    }

    /** The textarea's `onChange`. */
    method EditDescription(text: string)
      modifies this`description
      ensures description == text
    {
      description := text;
    }

    /** The security checkbox's `onChange`. */
    method SetSecurity(checked: bool)
      modifies this`isSecurity
      ensures isSecurity == checked
    {
      isSecurity := checked;
    }

    /** The Udemy checkbox's `onChange`. */
    method SetUdemy(checked: bool)
      modifies this`isUdemy
      ensures isUdemy == checked
    {
      isUdemy := checked;
    }

    /** `handleSubmit`: sets the message and returns the value passed to `onSave`, if it
        is called. */
    method Submit() returns (saved: Option<CourseFields>)
      modifies this`error
      ensures AllWhitespace(description) ==> error == DescriptionRequired && saved == None
      ensures !AllWhitespace(description) ==>
                error == "" && saved == Some(CourseFields(description, isSecurity, isUdemy))
    {
      match CheckCourse(description, isSecurity, isUdemy) {
        case Failure(message) =>
          error := message;
          saved := None;
        case Success(fields) =>
          error := "";
          saved := Some(fields);
      }
    }
  }
}
