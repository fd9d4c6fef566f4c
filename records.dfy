/** The employee record as the server stores it and the client receives it. */
module Records {
  import opened Wrappers

  /**
   * `id` is the store's `_id`; `code` is the business code `f_Id`;
   * `image` is a stored upload's file name on the server, and the
   * image URL (or null) once the record has been listed.
   */
  datatype Employee = Employee(
    id: string,
    code: string,
    name: string,
    email: string,
    mobile: string,
    designation: string,
    gender: string,
    courses: seq<string>,
    image: Option<string>,
    createdAt: int)
}
