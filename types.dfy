/** The course record of types.ts and the two small wrappers the other modules share. */
module Types {

  /** An optional value: `null`/`undefined` versus a present value. */
  datatype Option<+T> = None | Some(value: T)

  /** The outcome of an operation that either yields a value or throws an error. */
  datatype Result<+T, +E> = Success(value: T) | Failure(error: E)

  /** A course as the remote store keeps it. `createdAt` stands for the number of
      milliseconds `new Date(createdAt).getTime()` yields for the stored ISO string. */
  datatype Course = Course(
    id: string,
    description: string,
    isSecurity: bool,
    isUdemy: bool,
    userEmail: string,
    createdAt: int)

  /** The fields a client supplies: `Omit<Course, 'id' | 'userEmail' | 'createdAt'>`.
      The server-assigned fields cannot be expressed in a value of this type. */
  datatype CourseFields = CourseFields(description: string, isSecurity: bool, isUdemy: bool)

  /** The client-editable part of a stored course. */
  function FieldsOf(c: Course): (f: CourseFields)
    ensures f.description == c.description
    ensures f.isSecurity == c.isSecurity && f.isUdemy == c.isUdemy
  {
    CourseFields(c.description, c.isSecurity, c.isUdemy)
  }
}
