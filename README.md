# Course manager: a Dafny model of its client logic

The application keeps a list of course records in a spreadsheet-backed store reached
over HTTP. This project models the logic that sits between the user and that store:

- **SheetService** (`services/sheetService.ts`). `handleResponse` sorts a reply into
  one of four outcomes: a transport failure, a body that is not JSON, a failure the
  script reports in its envelope, or success with the reply's `data`. `getCourses` sorts the decoded list
  in place, newest `createdAt` first. `addCourse`, `updateCourse` and `deleteCourse`
  build fixed request payloads.
- **CourseList** holds the three list transforms App.tsx applies after a confirmed
  mutation: replace by id, prepend, and remove by id.
- **App** (`App.tsx`) is a class whose fields are the component's state: `courses`,
  `isLoading`, `error`, `isModalOpen`, `editingCourse`, `toast`, `userEmail`,
  `isEmailModalOpen`, plus a map standing for `localStorage`. Its handlers are methods.
  A service reply and the answer to the confirmation prompt are passed in as parameters.
- **EmailModal** (`components/EmailModal.tsx`). The pattern
  `^[^\s@]+@[^\s@]+\.[^\s@]+$` becomes a small backtracking matcher. A lemma proves the
  exact set of strings it accepts. The submit handler runs the blank check first, then
  the pattern.
- **CourseModal** (`components/CourseModal.tsx`). The form is initialised from the
  course being edited. Submitting refuses a blank description.
- **JsString** defines ECMAScript white space (the set `\s` matches and `trim` strips)
  and `String.prototype.trim`. Both dialogs use it.

How the model represents the source:

- A reply is a value: `ok`, `statusText`, the body text, and what `response.json()`
  yields. That is either the parsed envelope `{status, message, data}` or the
  SyntaxError message for a body that is not JSON.
- `createdAt` in `Course` is the integer `new Date(createdAt).getTime()` stands for.
- JavaScript truthiness is written out. App.tsx tests `if (savedEmail)` and
  `!userEmail`, so an empty string counts as "no operator" (`App.Truthy`).
- An absent envelope `message` appears in the error text as `undefined`. This is what
  the template literal at `services/sheetService.ts:34` produces.

The create payload follows the code, not the call site. `App.tsx:80` passes `userEmail`
to `addCourse` as a second argument. `addCourse` declares only one parameter
(`services/sheetService.ts:54-56`), and its comment says the backend records the
operator. So the operator's e-mail is never sent: `CreatePayload` has no place for it,
and `App.Controller.SaveCourse` sends exactly `CreatePayload(courseData)`.

## Model

| member | source | states |
|---|---|---|
| SheetService.Message | services/sheetService.ts:28-35 | The message of a transport failure is `"Erro na API: " + statusText + " - " + body`. The message of a script failure is `"Erro no script: " + message`, with `undefined` when the message is absent. |
| SheetService.HandleResponse | services/sheetService.ts:27-37 | The call succeeds exactly when the response is ok, the body parses, and the status is not exactly `'error'`; an absent status counts as not `'error'`. Success returns the envelope's `data` unchanged. A transport failure happens exactly when `!ok`. A script failure carries the envelope's message. |
| SheetService.TransportFailureIgnoresBody | services/sheetService.ts:28-31 | A non-ok response always fails with the status text and body text. The result does not depend on what the body would parse to. |
| SheetService.ScriptFailureMessage | services/sheetService.ts:33-35 | An ok response with status `'error'` fails with `"Erro no script: " + message`. |
| SheetService.TiersAreDistinguishable | services/sheetService.ts:30-34 | A transport failure's message never equals a script failure's message. |
| SheetService.InsertNewest | services/sheetService.ts:46 | One insertion pass takes a prefix ordered newest first and extends it by one element. The array's contents are unchanged as a multiset. |
| SheetService.SortNewestFirst | services/sheetService.ts:46 | The in-place sort leaves the array ordered by `createdAt`, descending. The new contents are a permutation of the old. |
| SheetService.GetCourses | services/sheetService.ts:42-47 | A `handleResponse` failure comes out as the same failure, never as a list. On success the list is ordered newest first and is a permutation of the decoded `data`. |
| SheetService.LaterRecordFirst | services/sheetService.ts:45-46 | Given two records with different dates, a newest-first permutation of them lists the later one first. |
| SheetService.RequestOf | services/sheetService.ts:57-97 | Reads a payload the way the store's protocol does. A payload is a request only if its action is `create`, `update` or `delete` and it carries that action's fields. |
| SheetService.CreatePayload | services/sheetService.ts:54-60 | The create payload carries no id. It reads back as exactly the create request for the given fields, so it has no e-mail. |
| SheetService.UpdatePayload | services/sheetService.ts:74-79 | The update payload reads back as the update request for exactly that id and those fields. |
| SheetService.DeletePayload | services/sheetService.ts:93-97 | The delete payload carries no data. It reads back as the delete request for exactly that id. |
| SheetService.PayloadsAreDistinct | services/sheetService.ts:57-97 | A create, an update and a delete payload always differ from one another. Equal payloads of one service were built from equal arguments: the same fields, the same id. |
| SheetService.AddCourse | services/sheetService.ts:54-69 | `addCourse` posts the create payload. Its outcome is `handleResponse` of the reply. |
| SheetService.UpdateCourse | services/sheetService.ts:74-88 | `updateCourse` posts the update payload for the id. Its outcome is `handleResponse` of the reply. |
| SheetService.DeleteCourse | services/sheetService.ts:93-107 | `deleteCourse` posts the delete payload. It resolves to `{success: true}` exactly when `handleResponse` does not fail, and otherwise fails with the same error. The returned data is ignored. |
| CourseList.ReplaceById | App.tsx:77 | The list keeps its length. Every element whose id equals the updated course's id is replaced by that course. Every other element stays unchanged, at the same index. |
| CourseList.Prepend | App.tsx:81 | The created course is at index 0 and the previous list follows unchanged. The length grows by one. |
| CourseList.RemoveById | App.tsx:96 | The list never grows, and no element left has the removed id. |
| CourseList.RemoveByIdCounts | App.tsx:96 | Removal drops every occurrence of a course with the removed id. Every other course keeps its number of occurrences. |
| CourseList.RemoveByIdConcat | App.tsx:96 | Removal distributes over concatenation, so the kept courses stay in their original order. |
| CourseList.RemoveAbsentId | App.tsx:96 | Removing an id that no course carries leaves the list as it was. |
| CourseList.DeleteUndoesCreate | App.tsx:80-96 | Deleting a course just prepended gives back the earlier list, provided its id was new. |
| CourseList.ReplaceIsIdempotent | App.tsx:77 | Applying the same update twice gives the same list as applying it once. |
| CourseList.RemoveAfterReplace | App.tsx:76-96 | A delete after an update of the same id leaves the same list as the delete alone. |
| App.Truthy | App.tsx:22 | A string or `null` is falsy exactly when it is `null` or the empty string. Any other string, white space included, counts as an identified operator. |
| App.Controller.constructor | App.tsx:11-18 | The initial state: an empty list, loading on, no error, both dialogs closed, nothing being edited, no toast, no operator. |
| App.Controller.LoadSavedEmail | App.tsx:20-28 | A non-empty e-mail saved under `'userEmail'` becomes `userEmail`. Otherwise the e-mail dialog opens and loading stops. Nothing else changes. |
| App.Controller.FetchCourses | App.tsx:30-43 | On success `courses` is the store's list, newest first, as a permutation, and `error` is cleared. On failure `courses` is kept, and `error` and the error toast get the message. Loading ends in both cases. |
| App.Controller.OnUserEmailChange | App.tsx:45-49 | The list is fetched only when the operator is identified, and then with the whole effect of FetchCourses: on success the list is the store's, newest first, as a permutation, with the error cleared and the toast kept; on failure the list is kept and the error and the error toast carry the message. Otherwise the list, the loading flag, the error and the toast stay as they are. |
| App.Controller.OpenModal | App.tsx:51-54 | Opens the course dialog, editing the given course or none. |
| App.Controller.CloseModal | App.tsx:56-59 | Closes the course dialog and stops editing. |
| App.Controller.SaveEmail | App.tsx:61-65 | Sets `userEmail`, stores the e-mail under `'userEmail'`, and closes the e-mail dialog. |
| App.Controller.SaveCourse | App.tsx:67-90 | With no operator: nothing is sent, `courses` and `error` are kept, the error toast is shown, and the e-mail dialog opens. Otherwise: a course being edited selects the update payload for its id, and no edited course selects the create payload. On success the list is transformed by ReplaceById or Prepend, the matching success toast is shown, and the dialog closes. On failure the list, the dialog and the edited course are kept, and `error` and the error toast carry the message. |
| App.Controller.DeleteCourse | App.tsx:92-104 | If the operator declines, nothing changes and nothing is sent. If confirmed, the delete payload is sent. On success the list becomes RemoveById of the old list and the success toast is shown. On failure the list is kept, and `error` and the error toast carry the message. |
| JsString.TrimStart | components/EmailModal.tsx:23 | The result is the suffix of the input that starts at the first non-white-space character. Everything removed is white space. |
| JsString.TrimEnd | components/CourseModal.tsx:42 | The result is the prefix of the input that ends at the last non-white-space character. Everything removed is white space. |
| JsString.Trim | components/CourseModal.tsx:42 | The result is a contiguous slice of the input. Everything before and after it is white space, and the slice neither starts nor ends with white space. |
| JsString.IsBlank | components/EmailModal.tsx:23 | `!s.trim()` holds exactly when `s` is entirely white space, including the empty string. |
| EmailModal.Matches | components/EmailModal.tsx:18 | A whole-string match of an anchored pattern uses at least one character per atom, and every character it uses is a word character (`[^\s@]`) or one of the pattern's literals. |
| EmailModal.PatternLanguage | components/EmailModal.tsx:18 | The pattern accepts a string exactly when all of these hold: it has no white space, it has exactly one `@`, the part before the `@` is non-empty, and the part after it contains a `.` that is neither its first nor its last character. |
| EmailModal.ValidateEmail | components/EmailModal.tsx:16-19 | `validateEmail` returns true exactly for strings with no white space, exactly one `@`, a non-empty part before it, and a `.` after it that is neither the first nor the last character of the part after the `@`. |
| EmailModal.BlankIsNeverValid | components/EmailModal.tsx:23-30 | A blank input never matches the pattern. So the blank check, which runs first, only decides which message is shown. |
| EmailModal.CheckEmail | components/EmailModal.tsx:21-33 | A blank input is refused with `'O e-mail é obrigatório.'`. A non-blank input outside the language is refused with `'Por favor, insira um e-mail válido.'`. Any other input is accepted exactly as typed. |
| EmailModal.EmailForm.constructor | components/EmailModal.tsx:8-9 | Starts with an empty input and no message. |
| EmailModal.EmailForm.EditEmail | components/EmailModal.tsx:51 | The input holds the typed text. |
| EmailModal.EmailForm.Submit | components/EmailModal.tsx:21-33 | Sets the message of the first check that fails, and then `onSave` is not called. When both checks pass, it clears the message and calls `onSave` with the input as typed. |
| CourseModal.CheckCourse | components/CourseModal.tsx:42-47 | Refused with `'A descrição é obrigatória.'` exactly when the description is all white space. Otherwise the payload is `{description, isSecurity, isUdemy}`, with the description untrimmed. The payload type has no id, e-mail or date. |
| CourseModal.InitialFields | components/CourseModal.tsx:12-25 | When editing, the form starts with the course's description and flags. Otherwise it starts with an empty description and both flags off. |
| CourseModal.UntouchedEditResubmits | components/CourseModal.tsx:19-47 | Submitting an untouched edit dialog sends back the record's own fields, unless its description is blank. |
| CourseModal.FreshAddIsRefused | components/CourseModal.tsx:12-45 | A new-course dialog submitted before anything is typed is refused. |
| CourseModal.CourseForm.constructor | components/CourseModal.tsx:12-25 | Mounting gives the fields of InitialFields and no message. |
| CourseModal.CourseForm.CourseChanged | components/CourseModal.tsx:19-25 | A present course overwrites the three fields. An absent course leaves them as they were. |
| CourseModal.CourseForm.EditDescription | components/CourseModal.tsx:68 | The description holds the typed text. |
| CourseModal.CourseForm.SetSecurity | components/CourseModal.tsx:81 | The security flag follows the checkbox. |
| CourseModal.CourseForm.SetUdemy | components/CourseModal.tsx:90 | The Udemy flag follows the checkbox. |
| CourseModal.CourseForm.Submit | components/CourseModal.tsx:40-48 | A blank description sets the message, and `onSave` is not called. Otherwise it clears the message and calls `onSave` with `{description, isSecurity, isUdemy}`. |

## Left out

- Network I/O is not modelled: `fetch`, the script URL, request headers, `async`/`await`, and reading the body through `response.text()`/`response.json()`. A reply is an input value. The model does not require the body text and the parsed body to agree.
- A `fetch` that rejects (a network or CORS failure surfacing as a TypeError, caught at App.tsx:36, App.tsx:85 and App.tsx:98) is not modelled, because every call takes a delivered reply. The catch branches are modelled only for the errors `handleResponse` throws.
- The envelope's `data` is assumed present and of the declared type. The source trusts it without checks. A missing `data` would make `data.sort` throw a TypeError at `services/sheetService.ts:46`, and that case is not modelled.
- SheetService.UpdateCourse: the data is the full `{description, isSecurity, isUdemy}` record rather than `Partial<...>`, because the only caller (`App.tsx:76`) always passes the full record.
- SheetService.SortNewestFirst: the order of courses with equal `createdAt` is not stated. `Array.prototype.sort` is stable; the insertion sort here is too, but no contract says so.
- Date parsing is not modelled. `createdAt` is an integer, so NaN from a malformed date cannot occur.
- App.Controller.FetchCourses: the fallback messages (`'Falha ao carregar cursos.'` and the like) are never produced. Every error `handleResponse` throws is an `Error`, so `err.message` is always used.
- App.Controller.SaveCourse and App.Controller.DeleteCourse: when the list is read is not modelled. App.tsx:77 and App.tsx:96 use the `courses` captured at render time rather than an updater. That only matters when React updates run concurrently.
- `window.confirm` is the `confirmed` parameter, and `localStorage` is a map field.
- Rendering is not modelled: the JSX, `dialog.showModal()`/`close()`, backdrop clicks, the table (`components/CourseTable.tsx`, whose date formatting is a locale call), and the toast timer (`components/Toast.tsx`).
- Unicode: Dafny characters are code points, while JavaScript regular expressions without the `u` flag work on UTF-16 code units. Because the pattern's classes are negated, the accepted language is the same for both.
