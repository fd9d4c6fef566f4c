/**
 * The four request handlers of the employee API (create, list, delete,
 * update) applied to a store of employee records keyed by id.
 *
 * What the handlers receive from outside is passed in: the fresh id and the
 * creation time the store assigns, the timestamp used for the business code,
 * the stored upload's file name, the JSON parser, and whether the store
 * operation throws (`fault`, carrying the thrown error's message).
 */
module EmployeeRoutes {
  import opened Wrappers
  import opened Text
  import opened Records

  const AllFieldsRequired := "All fields are required!"
  const ImageRequired := "Image is required!"
  const Created := "New employee created successfully"
  const InvalidId := "Invalid employee ID"
  const NotFound := "Employee not found"
  const Deleted := "Employee deleted successfully"
  const Updated := "Employee updated successfully"
  const UpdateFailed := "Error updating employee"
  const UploadsBase := "http://localhost:5000/uploads/"

  /** `courses` in a request body arrives either as a list or as a JSON-encoded string. */
  datatype CoursesInput = CourseList(items: seq<string>) | EncodedCourses(text: string)

  /** The text fields of a multipart request body; `None` is a field the body does not carry. */
  datatype RequestBody = RequestBody(
    name: Option<string>,
    email: Option<string>,
    mobile: Option<string>,
    designation: Option<string>,
    gender: Option<string>,
    courses: Option<CoursesInput>)

  /** `JSON.parse`: the parsed list, or the message of the error it throws. */
  type Parser = string -> Result<seq<string>, string>

  /** The JSON body of a response. */
  datatype Payload =
    | MessageBody(message: string)
    | ErrorBody(error: string)
    | MessageAndError(message: string, error: string)
    | UpdatedBody(message: string, employee: Employee)
    | ListBody(employees: seq<Employee>)

  datatype Response = Response(status: int, body: Payload)

  /** Truthiness of `courses`: any list, even an empty one, is truthy; a string must be non-empty. */
  predicate CoursesTruthy(c: Option<CoursesInput>) {
    c.Some? && (c.value.CourseList? || c.value.text != "")
  }

  /** The required-field check shared by create and update. */
  predicate HasRequiredFields(b: RequestBody) {
    Truthy(b.name) && Truthy(b.email) && Truthy(b.mobile)
    && Truthy(b.designation) && Truthy(b.gender) && CoursesTruthy(b.courses)
  }

  /** `Array.isArray(courses) ? courses : JSON.parse(courses)`, the same in create and update. */
  function NormalizeCourses(c: CoursesInput, parse: Parser): (r: Result<seq<string>, string>)
    ensures c.CourseList? ==> r == Success(c.items)
    ensures c.EncodedCourses? ==> r == parse(c.text)
  {
    match c
    case CourseList(items) => Success(items)
    case EncodedCourses(text) => parse(text)
  }

  /** The business code `'EMP' + Date.now()`. */
  function BusinessCode(stamp: nat): (code: string)
    ensures |code| > 3 && code[..3] == "EMP"
    ensures IsDigits(code[3..]) && DigitsValue(code[3..]) == stamp
    ensures |code| == 4 || code[3] != '0'
  {
    NatToStringRoundTrip(stamp);
    assert ("EMP" + NatToString(stamp))[3..] == NatToString(stamp);
    "EMP" + NatToString(stamp)
  }

  /** Business codes made at distinct timestamps are distinct. */
  lemma BusinessCodeInjective(a: nat, b: nat)
    requires a != b
    ensures BusinessCode(a) != BusinessCode(b)
  {
    // The digits after "EMP" read back as the timestamp, so equal codes mean equal timestamps.
  }

  /** The image as listed: the public URL of a stored file name, or null when there is none. */
  function ImageUrl(image: Option<string>): (url: Option<string>)
    ensures url.Some? <==> Truthy(image)
    ensures url.Some? ==> StartsWith(url.value, UploadsBase) && url.value[|UploadsBase|..] == image.value
  {
    if Truthy(image) then Some(UploadsBase + image.value) else None
  }

  /** A record as the list handler sends it: every field kept, the image turned into its URL. */
  function Published(e: Employee): (p: Employee)
    ensures p.(image := e.image) == e
    ensures p.image == ImageUrl(e.image)
  {
    e.(image := ImageUrl(e.image))
  }

  class EmployeeStore {
    var records: map<string, Employee>

    /** Every record is filed under its own id. */
    ghost predicate Valid()
      reads this
    {
      forall id :: id in records ==> records[id].id == id
    }

    constructor ()
      ensures Valid() && records == map[]
    {
      records := map[];
    }

    /**
     * `POST /create`. The required-field check runs first, then the image
     * check, then the courses are normalised, then the record is saved.
     */
    method Create(body: RequestBody, upload: Option<string>, parse: Parser,
                  id: string, stamp: nat, createdAt: int, fault: Option<string>)
      returns (resp: Response)
      requires Valid()
      requires id !in records
      modifies this
      ensures Valid()
      ensures !HasRequiredFields(body) ==>
        resp == Response(400, ErrorBody(AllFieldsRequired)) && records == old(records)
      ensures HasRequiredFields(body) && !Truthy(upload) ==>
        resp == Response(400, ErrorBody(ImageRequired)) && records == old(records)
      ensures HasRequiredFields(body) && Truthy(upload)
              && NormalizeCourses(body.courses.value, parse).Failure? ==>
        resp == Response(400, ErrorBody(NormalizeCourses(body.courses.value, parse).error))
        && records == old(records)
      ensures HasRequiredFields(body) && Truthy(upload)
              && NormalizeCourses(body.courses.value, parse).Success? && fault.Some? ==>
        resp == Response(400, ErrorBody(fault.value)) && records == old(records)
      ensures resp.status == 200 <==>
        HasRequiredFields(body) && Truthy(upload)
        && NormalizeCourses(body.courses.value, parse).Success? && fault.None?
      ensures resp.status == 200 ==>
        resp.body == MessageBody(Created)
        && records == old(records)[id := Employee(id, BusinessCode(stamp),
             body.name.value, body.email.value, body.mobile.value,
             body.designation.value, body.gender.value,
             NormalizeCourses(body.courses.value, parse).value, upload, createdAt)]
    {
      if !HasRequiredFields(body) {
        return Response(400, ErrorBody(AllFieldsRequired));
      }
      if !Truthy(upload) {
        return Response(400, ErrorBody(ImageRequired));
      }
      var courses := NormalizeCourses(body.courses.value, parse);
      if courses.Failure? {
        return Response(400, ErrorBody(courses.error));
      }
      if fault.Some? {
        return Response(400, ErrorBody(fault.value));
      }
      var e := Employee(id, BusinessCode(stamp), body.name.value, body.email.value,
                        body.mobile.value, body.designation.value, body.gender.value,
                        courses.value, upload, createdAt);
      records := records[id := e];
      resp := Response(200, MessageBody(Created));
    }

    /**
     * `GET /list`: every stored record exactly once, each with its image
     * published as a URL. The order is whatever the store enumerates.
     */
    method List(fault: Option<string>) returns (resp: Response)
      requires Valid()
      ensures fault.Some? ==> resp == Response(400, ErrorBody(fault.value))
      ensures fault.None? ==> resp.status == 200 && resp.body.ListBody?
      ensures resp.body.ListBody? ==>
        var out := resp.body.employees;
        && |out| == |records|
        && (forall i :: 0 <= i < |out| ==> out[i].id in records && out[i] == Published(records[out[i].id]))
        && (forall i, j :: 0 <= i < j < |out| ==> out[i].id != out[j].id)
        && (forall id :: id in records ==> exists i :: 0 <= i < |out| && out[i].id == id)
    {
      if fault.Some? {
        return Response(400, ErrorBody(fault.value));
      }
      var out: seq<Employee> := [];
      var pending := records.Keys;
      while pending != {}
        invariant pending <= records.Keys
        invariant |out| + |pending| == |records|
        invariant forall i :: 0 <= i < |out| ==>
          out[i].id in records && out[i].id !in pending && out[i] == Published(records[out[i].id])
        invariant forall i, j :: 0 <= i < j < |out| ==> out[i].id != out[j].id
        invariant forall id :: id in records && id !in pending ==> exists i :: 0 <= i < |out| && out[i].id == id
        decreases |pending|
      {
        var id :| id in pending;
        ghost var before := out;
        out := out + [Published(records[id])];
        assert forall i :: 0 <= i < |before| ==> out[i] == before[i];
        assert out[|before|].id == id;
        pending := pending - {id};
      }
      resp := Response(200, ListBody(out));
    }

    /** `DELETE /delete/:id`. */
    method Delete(id: string, fault: Option<string>) returns (resp: Response)
      requires Valid()
      modifies this
      ensures Valid()
      ensures id == "" ==> resp == Response(400, ErrorBody(InvalidId)) && records == old(records)
      ensures id != "" && fault.Some? ==> resp == Response(400, ErrorBody(fault.value)) && records == old(records)
      ensures id != "" && fault.None? && id !in old(records) ==>
        resp == Response(404, ErrorBody(NotFound)) && records == old(records)
      ensures id != "" && fault.None? && id in old(records) ==>
        resp == Response(200, MessageBody(Deleted)) && records == old(records) - {id}
    {
      if id == "" {
        return Response(400, ErrorBody(InvalidId));
      }
      if fault.Some? {
        return Response(400, ErrorBody(fault.value));
      }
      if id !in records {
        return Response(404, ErrorBody(NotFound));
      }
      records := records - {id};
      resp := Response(200, MessageBody(Deleted));
    }

    /**
     * `PUT /update/:id`. Same required-field check as create, but no image is
     * required; the six fields are overwritten and the image only when a new
     * file came with the request.
     */
    method Update(id: string, body: RequestBody, upload: Option<string>, parse: Parser, fault: Option<string>)
      returns (resp: Response)
      requires Valid()
      modifies this
      ensures Valid()
      ensures !HasRequiredFields(body) ==>
        resp == Response(400, ErrorBody(AllFieldsRequired)) && records == old(records)
      ensures HasRequiredFields(body) && NormalizeCourses(body.courses.value, parse).Failure? ==>
        resp == Response(500, MessageAndError(UpdateFailed, NormalizeCourses(body.courses.value, parse).error))
        && records == old(records)
      ensures HasRequiredFields(body) && NormalizeCourses(body.courses.value, parse).Success? && fault.Some? ==>
        resp == Response(500, MessageAndError(UpdateFailed, fault.value)) && records == old(records)
      ensures HasRequiredFields(body) && NormalizeCourses(body.courses.value, parse).Success? && fault.None?
              && id !in old(records) ==>
        resp == Response(404, MessageBody(NotFound)) && records == old(records)
      ensures resp.status == 200 <==>
        HasRequiredFields(body) && NormalizeCourses(body.courses.value, parse).Success?
        && fault.None? && id in old(records)
      ensures resp.status == 200 ==>
        var before := old(records)[id];
        var after := before.(name := body.name.value, email := body.email.value,
                             mobile := body.mobile.value, designation := body.designation.value,
                             gender := body.gender.value,
                             courses := NormalizeCourses(body.courses.value, parse).value,
                             image := if upload.Some? then upload else before.image);
        && records == old(records)[id := after]
        && resp.body == UpdatedBody(Updated, after)
    {
      if !HasRequiredFields(body) {
        return Response(400, ErrorBody(AllFieldsRequired));
      }
      var courses := NormalizeCourses(body.courses.value, parse);
      if courses.Failure? {
        return Response(500, MessageAndError(UpdateFailed, courses.error));
      }
      if fault.Some? {
        return Response(500, MessageAndError(UpdateFailed, fault.value));
      }
      if id !in records {
        return Response(404, MessageBody(NotFound));
      }
      var e := records[id].(name := body.name.value, email := body.email.value,
                            mobile := body.mobile.value, designation := body.designation.value,
                            gender := body.gender.value, courses := courses.value);
      if upload.Some? {
        e := e.(image := upload);
      }
      records := records[id := e];
      resp := Response(200, UpdatedBody(Updated, e));
    }
  }

  /** Deleting the same id twice: the first call removes the record, the second finds nothing. */
  method DeleteTwice(store: EmployeeStore, id: string) returns (first: Response, second: Response)
    requires store.Valid() && id != "" && id in store.records
    modifies store
    ensures first == Response(200, MessageBody(Deleted))
    ensures second == Response(404, ErrorBody(NotFound))
    ensures store.records == old(store.records) - {id}
  {
    first := store.Delete(id, None);
    second := store.Delete(id, None);
  }

  /** A successful create is visible, published, in the next listing, which holds one record more. */
  method CreateThenList(store: EmployeeStore, body: RequestBody, upload: Option<string>, parse: Parser,
                        id: string, stamp: nat, createdAt: int)
    returns (created: Response, listed: Response)
    requires store.Valid() && id !in store.records
    requires HasRequiredFields(body) && Truthy(upload)
    requires NormalizeCourses(body.courses.value, parse).Success?
    modifies store
    ensures created == Response(200, MessageBody(Created))
    ensures listed.status == 200 && listed.body.ListBody?
    ensures |listed.body.employees| == |old(store.records)| + 1
    ensures
      var added := Employee(id, BusinessCode(stamp), body.name.value, body.email.value, body.mobile.value,
                            body.designation.value, body.gender.value,
                            NormalizeCourses(body.courses.value, parse).value, upload, createdAt);
      && store.records == old(store.records)[id := added]
      && Published(added) in listed.body.employees
    ensures forall e :: e in listed.body.employees ==> e.id in store.records && e == Published(store.records[e.id])
  {
    created := store.Create(body, upload, parse, id, stamp, createdAt, None);
    listed := store.List(None);
    assert id in store.records;
  }
}
