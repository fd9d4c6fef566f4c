/**
 * The create-employee form's state: per-field updates, the course checkbox
 * toggle, the digits-only mobile check, the JPEG/PNG image gate, the packing
 * of the multipart payload, and the outcome of submitting it.
 *
 * The server's answer to the submit comes in as a parameter (`PostOutcome`).
 */
module EmployeeForm {
  import opened Wrappers
  import opened Text
  import opened Sequences

  const MobileErrorText := "Please enter a valid mobile number (only numbers are allowed)."
  const ImageErrorText := "Please upload a valid image (JPG or PNG only)."
  const NoServerError := "Something went wrong."

  /** The three course checkboxes. */
  predicate IsCourseOption(c: string) {
    c == "MCA" || c == "BCA" || c == "BSC"
  }

  /** The names of the form's text inputs, select and radio group. */
  predicate IsTextField(k: string) {
    k == "name" || k == "email" || k == "mobile" || k == "designation" || k == "gender"
  }

  /** The keys of `formData` in the order `for ... in` visits them. */
  const FormKeys: seq<string> := ["name", "email", "mobile", "designation", "gender", "courses", "image"]

  /** A chosen file, with its MIME type. */
  datatype File = File(fileName: string, mimeType: string)

  datatype FormData = FormData(
    name: string,
    email: string,
    mobile: string,
    designation: string,
    gender: string,
    courses: seq<string>,
    image: Option<File>)

  /** The state the form starts in and returns to after a successful submit. */
  const EmptyForm := FormData("", "", "", "", "", [], None)

  /** `e.target` of a change event; `kind` is its `type`. */
  datatype InputEvent = InputEvent(name: string, value: string, kind: string, checked: bool)

  /** The value of a text field, or the string `null` becomes in a payload for the empty image. */
  function TextOf(f: FormData, key: string): string {
    if key == "name" then f.name
    else if key == "email" then f.email
    else if key == "mobile" then f.mobile
    else if key == "designation" then f.designation
    else if key == "gender" then f.gender
    else "null"
  }

  /** `{ ...prevData, [name]: value }` for one of the text fields. */
  function SetField(f: FormData, name: string, value: string): (g: FormData)
    requires IsTextField(name)
    ensures TextOf(g, name) == value
    ensures forall k :: IsTextField(k) && k != name ==> TextOf(g, k) == TextOf(f, k)
    ensures g.courses == f.courses && g.image == f.image
  {
    if name == "name" then f.(name := value)
    else if name == "email" then f.(email := value)
    else if name == "mobile" then f.(mobile := value)
    else if name == "designation" then f.(designation := value)
    else f.(gender := value)
  }

  /** A checked box appends its course; an unchecked box removes every occurrence of it. */
  function ToggleCourse(courses: seq<string>, value: string, checked: bool): (r: seq<string>)
    ensures checked ==> |r| == |courses| + 1 && r[..|courses|] == courses && r[|courses|] == value
    ensures !checked ==> value !in r && IsSubsequence(r, courses)
    ensures !checked ==> forall c :: c != value ==> multiset(r)[c] == multiset(courses)[c]
  {
    if checked then courses + [value] else RemoveAll(courses, value)
  }

  /** The course list holds each offered course at most once. */
  predicate CoursesWellFormed(courses: seq<string>) {
    NoDuplicates(courses) && forall i :: 0 <= i < |courses| ==> IsCourseOption(courses[i])
  }

  /**
   * Each checkbox shows `courses.includes(value)`, so a click reports the
   * opposite; toggling then keeps the list duplicate-free and inside the
   * offered courses.
   */
  lemma ToggleKeepsCoursesWellFormed(courses: seq<string>, value: string, checked: bool)
    requires CoursesWellFormed(courses) && IsCourseOption(value)
    requires checked == (value !in courses)
    ensures CoursesWellFormed(ToggleCourse(courses, value, checked))
  {
    var r := ToggleCourse(courses, value, checked);
    if checked {
      assert r == courses + [value];
      forall i, j | 0 <= i < j < |r| ensures r[i] != r[j] {
        if j == |courses| {
          assert r[i] == courses[i];
        } else {
          assert r[i] == courses[i] && r[j] == courses[j];
        }
      }
    } else {
      SubsequenceMembers(r, courses);
      SubsequenceNoDuplicates(r, courses);
      forall i | 0 <= i < |r| ensures IsCourseOption(r[i]) {
        var k :| 0 <= k < |courses| && courses[k] == r[i];
      }
    }
  }

  /** The mobile field's error text: empty exactly when the value matches `^[0-9]*$`. */
  function MobileError(value: string): (err: string)
    ensures err == "" <==> IsDigits(value)
    ensures err != "" ==> err == MobileErrorText
  {
    if IsDigits(value) then "" else MobileErrorText
  }

  /** The image gate: a file is present and is a JPEG or a PNG. */
  predicate ImageAccepted(file: Option<File>) {
    file.Some? && (file.value.mimeType == "image/jpeg" || file.value.mimeType == "image/png")
  }

  // ---------------------------------------------------------------------
  // Multipart payload
  // ---------------------------------------------------------------------

  datatype EntryValue = TextValue(text: string) | FileValue(file: File)

  /** One `submitData.append(key, value)`. */
  datatype Entry = Entry(key: string, value: EntryValue)

  /** One `courses[]` entry per selected course, in selection order. */
  function CourseEntries(courses: seq<string>): seq<Entry> {
    if courses == [] then []
    else CourseEntries(courses[..|courses| - 1]) + [Entry("courses[]", TextValue(courses[|courses| - 1]))]
  }

  /** What one key of `formData` contributes to the payload. */
  function KeyEntries(f: FormData, key: string): seq<Entry> {
    if key == "courses" then CourseEntries(f.courses)
    else if key == "image" && f.image.Some? then [Entry("image", FileValue(f.image.value))]
    else [Entry(key, TextValue(TextOf(f, key)))]
  }

  /** What a run of keys contributes, in order. */
  function EntriesFor(f: FormData, keys: seq<string>): seq<Entry> {
    if keys == [] then []
    else EntriesFor(f, keys[..|keys| - 1]) + KeyEntries(f, keys[|keys| - 1])
  }

  /** The whole payload the submit handler builds. */
  function Payload(f: FormData): seq<Entry> {
    EntriesFor(f, FormKeys)
  }

  /** The loop of the submit handler that packs `formData` into the payload. */
  method PackPayload(f: FormData) returns (data: seq<Entry>)
    ensures data == Payload(f)
  {
    data := [];
    var i := 0;
    while i < |FormKeys|
      invariant 0 <= i <= |FormKeys|
      invariant data == EntriesFor(f, FormKeys[..i])
    {
      var key := FormKeys[i];
      if key == "courses" {
        ghost var start := data;
        var j := 0;
        while j < |f.courses|
          invariant 0 <= j <= |f.courses|
          invariant data == start + CourseEntries(f.courses[..j])
        {
          data := data + [Entry("courses[]", TextValue(f.courses[j]))];
          assert f.courses[..j + 1][..j] == f.courses[..j];
          j := j + 1;
        }
        assert f.courses[..j] == f.courses;
      } else if key == "image" && f.image.Some? {
        data := data + [Entry("image", FileValue(f.image.value))];
      } else {
        data := data + [Entry(key, TextValue(TextOf(f, key)))];
      }
      assert FormKeys[..i + 1][..i] == FormKeys[..i];
      i := i + 1;
    }
    assert FormKeys[..i] == FormKeys;
  }

  /** The text values appended under `key`, in order. */
  function TextsUnder(p: seq<Entry>, key: string): seq<string> {
    if p == [] then []
    else (if p[0].key == key && p[0].value.TextValue? then [p[0].value.text] else []) + TextsUnder(p[1..], key)
  }

  /** The files appended under `key`, in order. */
  function FilesUnder(p: seq<Entry>, key: string): seq<File> {
    if p == [] then []
    else (if p[0].key == key && p[0].value.FileValue? then [p[0].value.file] else []) + FilesUnder(p[1..], key)
  }

  lemma {:induction false} TextsUnderAppend(p: seq<Entry>, q: seq<Entry>, key: string)
    ensures TextsUnder(p + q, key) == TextsUnder(p, key) + TextsUnder(q, key)
  {
    if p != [] {
      var head := if p[0].key == key && p[0].value.TextValue? then [p[0].value.text] else [];
      assert (p + q)[0] == p[0] && (p + q)[1..] == p[1..] + q;
      assert TextsUnder(p + q, key) == head + TextsUnder(p[1..] + q, key);
      TextsUnderAppend(p[1..], q, key);
    } else {
      assert p + q == q;
    }
  }

  lemma {:induction false} FilesUnderAppend(p: seq<Entry>, q: seq<Entry>, key: string)
    ensures FilesUnder(p + q, key) == FilesUnder(p, key) + FilesUnder(q, key)
  {
    if p != [] {
      var head := if p[0].key == key && p[0].value.FileValue? then [p[0].value.file] else [];
      assert (p + q)[0] == p[0] && (p + q)[1..] == p[1..] + q;
      assert FilesUnder(p + q, key) == head + FilesUnder(p[1..] + q, key);
      FilesUnderAppend(p[1..], q, key);
    } else {
      assert p + q == q;
    }
  }

  lemma {:induction false} CourseEntriesUnder(courses: seq<string>, key: string)
    ensures TextsUnder(CourseEntries(courses), key) == if key == "courses[]" then courses else []
    ensures FilesUnder(CourseEntries(courses), key) == []
    decreases |courses|
  {
    if courses != [] {
      var init, c := courses[..|courses| - 1], courses[|courses| - 1];
      var last := [Entry("courses[]", TextValue(c))];
      assert CourseEntries(courses) == CourseEntries(init) + last;
      assert last[1..] == [];
      assert TextsUnder(last, key) == if key == "courses[]" then [c] else [];
      assert FilesUnder(last, key) == [];
      CourseEntriesUnder(init, key);
      TextsUnderAppend(CourseEntries(init), last, key);
      FilesUnderAppend(CourseEntries(init), last, key);
      assert init + [c] == courses;
    }
  }

  lemma {:induction false} EntriesForSnoc(f: FormData, keys: seq<string>, key: string)
    ensures EntriesFor(f, keys + [key]) == EntriesFor(f, keys) + KeyEntries(f, key)
  {
    assert (keys + [key])[..|keys|] == keys;
  }

  lemma {:induction false} EntriesForAppend(f: FormData, a: seq<string>, b: seq<string>)
    ensures EntriesFor(f, a + b) == EntriesFor(f, a) + EntriesFor(f, b)
    decreases |b|
  {
    if b == [] {
      assert a + b == a;
    } else {
      var init, last := b[..|b| - 1], b[|b| - 1];
      assert a + b == (a + init) + [last];
      assert init + [last] == b;
      calc {
        EntriesFor(f, a + b);
        { EntriesForSnoc(f, a + init, last); }
        EntriesFor(f, a + init) + KeyEntries(f, last);
        { EntriesForAppend(f, a, init); }
        EntriesFor(f, a) + EntriesFor(f, init) + KeyEntries(f, last);
        { EntriesForSnoc(f, init, last); }
        EntriesFor(f, a) + EntriesFor(f, b);
      }
    }
  }

  /** The text values one key of `formData` contributes under `key`. */
  lemma KeyTexts(f: FormData, from: string, key: string)
    ensures TextsUnder(KeyEntries(f, from), key) ==
      if from == "courses" then (if key == "courses[]" then f.courses else [])
      else if from == "image" && f.image.Some? then []
      else if from == key then [TextOf(f, from)]
      else []
  {
    if from == "courses" {
      CourseEntriesUnder(f.courses, key);
    }
  }

  /** The files one key of `formData` contributes under `key`. */
  lemma KeyFiles(f: FormData, from: string, key: string)
    ensures FilesUnder(KeyEntries(f, from), key) ==
      if from == "image" && f.image.Some? && key == "image" then [f.image.value] else []
  {
    if from == "courses" {
      CourseEntriesUnder(f.courses, key);
    }
  }

  /** Keys that neither are `key` nor produce `courses[]` entries under it contribute no text under `key`. */
  lemma {:induction false} NoTextsFor(f: FormData, keys: seq<string>, key: string)
    requires key !in keys
    requires key == "courses[]" ==> "courses" !in keys
    ensures TextsUnder(EntriesFor(f, keys), key) == []
    decreases |keys|
  {
    if keys != [] {
      var init, last := keys[..|keys| - 1], keys[|keys| - 1];
      assert init + [last] == keys;
      TextsUnderAppend(EntriesFor(f, init), KeyEntries(f, last), key);
      KeyTexts(f, last, key);
      NoTextsFor(f, init, key);
    }
  }

  /** Keys other than the image contribute no files. */
  lemma {:induction false} NoFilesFor(f: FormData, keys: seq<string>, key: string)
    requires "image" !in keys
    ensures FilesUnder(EntriesFor(f, keys), key) == []
    decreases |keys|
  {
    if keys != [] {
      var init, last := keys[..|keys| - 1], keys[|keys| - 1];
      assert init + [last] == keys;
      FilesUnderAppend(EntriesFor(f, init), KeyEntries(f, last), key);
      KeyFiles(f, last, key);
      NoFilesFor(f, init, key);
    }
  }

  /** The payload is what the keys before `image` contribute, then the image's entry. */
  lemma PayloadEndsWithImage(f: FormData, key: string)
    ensures TextsUnder(Payload(f), key) ==
      TextsUnder(EntriesFor(f, FormKeys[..6]), key) + TextsUnder(KeyEntries(f, "image"), key)
    ensures FilesUnder(Payload(f), key) ==
      if key == "image" && f.image.Some? then [f.image.value] else []
  {
    var pre := FormKeys[..6];
    assert FormKeys == pre + ["image"];
    EntriesForSnoc(f, pre, "image");
    assert Payload(f) == EntriesFor(f, pre) + KeyEntries(f, "image");
    TextsUnderAppend(EntriesFor(f, pre), KeyEntries(f, "image"), key);
    FilesUnderAppend(EntriesFor(f, pre), KeyEntries(f, "image"), key);
    assert "image" !in pre;
    NoFilesFor(f, pre, key);
    KeyFiles(f, "image", key);
  }

  /** The `courses[]` entries of the payload are exactly the selected courses, in selection order. */
  lemma PayloadCourses(f: FormData)
    ensures TextsUnder(Payload(f), "courses[]") == f.courses
    ensures FilesUnder(Payload(f), "courses[]") == []
  {
    var key := "courses[]";
    var pre := FormKeys[..5];
    assert FormKeys[..6] == pre + ["courses"];
    assert key !in pre && "courses" !in pre;
    PayloadEndsWithImage(f, key);
    EntriesForSnoc(f, pre, "courses");
    TextsUnderAppend(EntriesFor(f, pre), KeyEntries(f, "courses"), key);
    NoTextsFor(f, pre, key);
    KeyTexts(f, "courses", key);
    KeyTexts(f, "image", key);
  }

  /** The image goes in as a file when there is one, and otherwise as the text "null". */
  lemma PayloadImage(f: FormData)
    ensures FilesUnder(Payload(f), "image") == if f.image.Some? then [f.image.value] else []
    ensures TextsUnder(Payload(f), "image") == if f.image.Some? then [] else ["null"]
  {
    var key := "image";
    assert key !in FormKeys[..6];
    PayloadEndsWithImage(f, key);
    NoTextsFor(f, FormKeys[..6], key);
    KeyTexts(f, "image", key);
  }

  /** No key other than the five text fields, `courses[]` and `image` appears in the payload. */
  lemma PayloadOtherKeys(f: FormData, key: string)
    requires !IsTextField(key) && key != "courses[]" && key != "image"
    ensures TextsUnder(Payload(f), key) == []
    ensures FilesUnder(Payload(f), key) == []
  {
    PayloadEndsWithImage(f, key);
    KeyTexts(f, "image", key);
    OtherKeyBeforeImage(f, key);
  }

  /** The keys before the image put no text under a key that is none of theirs. */
  lemma OtherKeyBeforeImage(f: FormData, key: string)
    requires !IsTextField(key) && key != "courses[]" && key != "image"
    ensures TextsUnder(EntriesFor(f, FormKeys[..6]), key) == []
  {
    var pre := FormKeys[..5];
    assert pre == ["name", "email", "mobile", "designation", "gender"];
    assert FormKeys[..6] == pre + ["courses"];
    EntriesForSnoc(f, pre, "courses");
    TextsUnderAppend(EntriesFor(f, pre), KeyEntries(f, "courses"), key);
    NoTextsFor(f, pre, key);
    KeyTexts(f, "courses", key);
  }

  /** Every text field appears once, under its own key, with its value. */
  lemma PayloadTextField(f: FormData, key: string)
    requires IsTextField(key)
    ensures TextsUnder(Payload(f), key) == [TextOf(f, key)]
    ensures FilesUnder(Payload(f), key) == []
  {
    PayloadEndsWithImage(f, key);
    KeyTexts(f, "image", key);
    if key == "name" {
      FieldBeforeImage(f, key, 0);
    } else if key == "email" {
      FieldBeforeImage(f, key, 1);
    } else if key == "mobile" {
      FieldBeforeImage(f, key, 2);
    } else if key == "designation" {
      FieldBeforeImage(f, key, 3);
    } else {
      FieldBeforeImage(f, key, 4);
    }
  }

  /** Among the keys before the image, the text field at position `at` is the only one with text under it. */
  lemma FieldBeforeImage(f: FormData, key: string, at: nat)
    requires at < 5 && key == FormKeys[at]
    ensures TextsUnder(EntriesFor(f, FormKeys[..6]), key) == [TextOf(f, key)]
  {
    var pre, post := FormKeys[..at], FormKeys[at + 1..6];
    assert FormKeys[..6] == pre + [key] + post;
    assert key !in pre && key !in post;
    EntriesForAppend(f, pre + [key], post);
    EntriesForSnoc(f, pre, key);
    TextsUnderAppend(EntriesFor(f, pre), KeyEntries(f, key), key);
    TextsUnderAppend(EntriesFor(f, pre) + KeyEntries(f, key), EntriesFor(f, post), key);
    NoTextsFor(f, pre, key);
    NoTextsFor(f, post, key);
    KeyTexts(f, key, key);
  }

  // ---------------------------------------------------------------------
  // Form state
  // ---------------------------------------------------------------------

  /** The server's answer to the submit: its `message`, or the `error` of a failed request (if any). */
  datatype PostOutcome = Posted(message: string) | PostFailed(error: Option<string>)

  /** `` `Error: ${error.response?.data?.error || 'Something went wrong.'}` `` */
  function FailureMessage(error: Option<string>): (m: string)
    ensures Truthy(error) ==> m == "Error: " + error.value
    ensures !Truthy(error) ==> m == "Error: " + NoServerError
  {
    "Error: " + (if Truthy(error) then error.value else NoServerError)
  }

  class FormState {
    var formData: FormData
    var message: string
    var imageError: string
    var mobileError: string

    /** The selected courses stay duplicate-free and among the offered ones. */
    ghost predicate Valid()
      reads this
    {
      CoursesWellFormed(formData.courses)
    }

    constructor ()
      ensures Valid()
      ensures formData == EmptyForm && message == "" && imageError == "" && mobileError == ""
    {
      formData := EmptyForm;
      message, imageError, mobileError := "", "", "";
    }

    /**
     * `handleInputChange`. Checkbox events come from the three course boxes,
     * each reporting the opposite of whether its course is selected; other
     * events come from the five text fields.
     */
    method HandleInputChange(ev: InputEvent)
      requires Valid()
      requires ev.kind == "checkbox" ==> IsCourseOption(ev.value) && ev.checked == (ev.value !in formData.courses)
      requires ev.kind != "checkbox" ==> IsTextField(ev.name)
      modifies this`formData, this`mobileError
      ensures Valid()
      ensures ev.kind == "checkbox" ==>
        formData == old(formData).(courses := ToggleCourse(old(formData.courses), ev.value, ev.checked))
      ensures ev.kind != "checkbox" ==> formData == SetField(old(formData), ev.name, ev.value)
      ensures ev.name == "mobile" ==> mobileError == MobileError(ev.value)
      ensures ev.name != "mobile" ==> mobileError == old(mobileError)
    {
      if ev.kind == "checkbox" {
        ToggleKeepsCoursesWellFormed(formData.courses, ev.value, ev.checked);
        formData := formData.(courses := ToggleCourse(formData.courses, ev.value, ev.checked));
      } else {
        formData := SetField(formData, ev.name, ev.value);
      }
      if ev.name == "mobile" {
        mobileError := MobileError(ev.value);
      }
    }

    /** `handleImageChange`: keep a JPEG or PNG, otherwise drop the image and show the error. */
    method HandleImageChange(file: Option<File>)
      requires Valid()
      modifies this`formData, this`imageError
      ensures Valid()
      ensures ImageAccepted(file) ==> formData == old(formData).(image := file) && imageError == ""
      ensures !ImageAccepted(file) ==> formData == old(formData).(image := None) && imageError == ImageErrorText
    {
      if ImageAccepted(file) {
        imageError := "";
        formData := formData.(image := file);
      } else {
        imageError := ImageErrorText;
        formData := formData.(image := None);
      }
    }

    /**
     * `handleSubmit`, reachable only while the submit button is enabled.
     * Returns the payload sent and whether `onSuccess` was called.
     */
    method HandleSubmit(outcome: PostOutcome) returns (sent: seq<Entry>, notified: bool)
      requires Valid() && mobileError == ""
      modifies this`formData, this`message
      ensures Valid()
      ensures sent == Payload(old(formData))
      ensures outcome.Posted? ==> message == outcome.message && formData == EmptyForm && notified
      ensures outcome.PostFailed? ==>
        message == FailureMessage(outcome.error) && formData == old(formData) && !notified
    {
      sent := PackPayload(formData);
      match outcome
      case Posted(msg) =>
        message := msg;
        formData := EmptyForm;
        notified := true;
      case PostFailed(error) =>
        message := FailureMessage(error);
        notified := false;
    }
  }
}
