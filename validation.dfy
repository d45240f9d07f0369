/**
 * Required-field checks for student and teacher data. Each walks its field
 * list in order and stops at the first field that is absent or empty; the
 * student check then asks whether the birth date parses as day.month.year,
 * which is left to a date predicate passed in.
 */
module DataValidation {
  import opened Wrappers

  type Fields = map<string, string>

  const BIRTH_DATE: string := "дата_рождения"
  const STUDENT_FIELDS: seq<string> := ["фамилия", "имя", "отчество", BIRTH_DATE, "класс"]
  const TEACHER_FIELDS: seq<string> := ["фамилия", "имя", "отчество", "должность"]

  const MISSING_PREFIX: string := "Отсутствует обязательное поле: "
  const BAD_DATE: string := "Неверный формат даты рождения. Используйте ДД.ММ.ГГГГ"
  const VALID: string := "Данные валидны"

  /** The (success, message) pair the validators return. */
  datatype Validation = Validation(ok: bool, message: string)

  /** A field counts as given when it is there and not empty. */
  predicate Present(data: Fields, field: string)
  {
    field in data && data[field] != ""
  }

  function MissingField(field: string): string
  {
    MISSING_PREFIX + field
  }

  /** Position of the first required field that is not given. */
  function FirstMissing(required: seq<string>, data: Fields): (r: Option<nat>)
    ensures r.None? <==> forall i | 0 <= i < |required| :: Present(data, required[i])
    ensures r.Some? ==> r.value < |required| && !Present(data, required[r.value])
    ensures r.Some? ==> forall j | 0 <= j < r.value :: Present(data, required[j])
  {
    if required == [] then None
    else if !Present(data, required[0]) then Some(0)
    else match FirstMissing(required[1..], data)
      case None => None
      case Some(k) => Some(k + 1)
  }

  /** Missing fields first, in list order, then the birth date format. */
  function ValidateStudentData(data: Fields, acceptsDate: string -> bool): (r: Validation)
    ensures r.ok <==> (forall i | 0 <= i < |STUDENT_FIELDS| :: Present(data, STUDENT_FIELDS[i]))
                      && BIRTH_DATE in data && acceptsDate(data[BIRTH_DATE])
    ensures r.ok ==> r.message == VALID
    ensures forall i | 0 <= i < |STUDENT_FIELDS| ::
              !Present(data, STUDENT_FIELDS[i]) && (forall j | 0 <= j < i :: Present(data, STUDENT_FIELDS[j]))
              ==> r == Validation(false, MissingField(STUDENT_FIELDS[i]))
    ensures ((forall i | 0 <= i < |STUDENT_FIELDS| :: Present(data, STUDENT_FIELDS[i]))
             && BIRTH_DATE in data && !acceptsDate(data[BIRTH_DATE]))
            ==> r == Validation(false, BAD_DATE)
  {
    match FirstMissing(STUDENT_FIELDS, data)
    case Some(i) => Validation(false, MissingField(STUDENT_FIELDS[i]))
    case None =>
      assert Present(data, STUDENT_FIELDS[3]);
      if !acceptsDate(data[BIRTH_DATE]) then Validation(false, BAD_DATE)
      else Validation(true, VALID)
  }

  /** Missing fields, in list order; no date check. */
  function ValidateTeacherData(data: Fields): (r: Validation)
    ensures r.ok <==> forall i | 0 <= i < |TEACHER_FIELDS| :: Present(data, TEACHER_FIELDS[i])
    ensures r.ok ==> r.message == VALID
    ensures forall i | 0 <= i < |TEACHER_FIELDS| ::
              !Present(data, TEACHER_FIELDS[i]) && (forall j | 0 <= j < i :: Present(data, TEACHER_FIELDS[j]))
              ==> r == Validation(false, MissingField(TEACHER_FIELDS[i]))
  {
    match FirstMissing(TEACHER_FIELDS, data)
    case Some(i) => Validation(false, MissingField(TEACHER_FIELDS[i]))
    case None => Validation(true, VALID)
  }

  /** Two dictionaries that agree on the required fields agree on where the first gap is. */
  lemma {:induction false} FirstMissingOnlyReadsRequired(required: seq<string>, d1: Fields, d2: Fields)
    requires forall i | 0 <= i < |required| :: Present(d1, required[i]) == Present(d2, required[i])
    ensures FirstMissing(required, d1) == FirstMissing(required, d2)
  {
    if required != [] {
      FirstMissingOnlyReadsRequired(required[1..], d1, d2);
    }
  }

  /** Keys outside the required list are ignored: only the required fields decide the outcome. */
  lemma StudentExtraKeysIgnored(data: Fields, key: string, value: string, acceptsDate: string -> bool)
    requires key !in STUDENT_FIELDS
    ensures ValidateStudentData(data[key := value], acceptsDate) == ValidateStudentData(data, acceptsDate)
  {
    FirstMissingOnlyReadsRequired(STUDENT_FIELDS, data[key := value], data);
  }

  /** Keys outside the required list are ignored by the teacher check too. */
  lemma TeacherExtraKeysIgnored(data: Fields, key: string, value: string)
    requires key !in TEACHER_FIELDS
    ensures ValidateTeacherData(data[key := value]) == ValidateTeacherData(data)
  {
    FirstMissingOnlyReadsRequired(TEACHER_FIELDS, data[key := value], data);
  }

  /** A missing-field message names exactly one field and is never the success message. */
  lemma MessagesDistinguishOutcomes(f: string, g: string)
    ensures MissingField(f) == MissingField(g) ==> f == g
    ensures MissingField(f) != VALID
  {
    if MissingField(f) == MissingField(g) {
      assert f == MissingField(f)[|MISSING_PREFIX|..];
      assert g == MissingField(g)[|MISSING_PREFIX|..];
    }
    assert MissingField(f)[0] == 'О';
    assert VALID[0] == 'Д';
  }
}
