/**
 * The three Yup rule sets of the dashboard, written as data, and Yup's
 * `validate(value, { abortEarly: false })` over them: every failing rule of
 * every field is reported, none is skipped after the first.
 */
module Validation {
  import opened Wrappers
  import opened Text

  /** One test of a `Yup.string()` chain. */
  datatype Rule =
    | Required(message: string)
    | MinLength(min: nat, message: string)
    | MaxLength(max: nat, message: string)

  /** The chain declared for one key; `trims` is a `.trim()` transform in the chain. */
  datatype FieldRules = FieldRules(path: string, trims: bool, rules: seq<Rule>)

  type Schema = seq<FieldRules>

  /** The plain object handed to `validate`; a key that is not in the map is `undefined`. */
  type Record = map<string, string>

  /** One entry of `ValidationError.inner`. */
  datatype ValidationError = ValidationError(path: string, message: string)

  /** bookValidationSchema: title, description, image and type; there is no rule for price. */
  const BookSchema: Schema := [
    FieldRules("title", true, [Required("Book title is required"),
                               MinLength(3, "Too short book title"),
                               MaxLength(100, "Too long book title")]),
    FieldRules("description", false, [Required("Book description is required"),
                                      MinLength(20, "Too short book description")]),
    FieldRules("image", false, [Required("Book image is required")]),
    FieldRules("type", false, [Required("Type is required")])
  ]

  /** newspaperValidationSchema. */
  const NewspaperSchema: Schema := [
    FieldRules("title", true, [Required("Newspaper title is required"),
                               MinLength(3, "Too short title"),
                               MaxLength(100, "Too long title")]),
    FieldRules("description", false, [Required("Description is required"),
                                      MinLength(10, "Too short description")])
  ]

  /** courseValidationSchema: lower bounds only, no field is trimmed by the schema. */
  const CourseSchema: Schema := [
    FieldRules("name", false, [Required("Course Name is required"), MinLength(3, "Too short Name")]),
    FieldRules("title", false, [Required("Title is required"), MinLength(5, "Too short Title")]),
    FieldRules("type", false, [Required("Type is required")]),
    FieldRules("image", false, [Required("Image is required")])
  ]

  /** The value a field's tests see: absent stays absent, `.trim()` is applied first. */
  function FieldValue(f: FieldRules, rec: Record): Option<string> {
    if f.path in rec then Some(if f.trims then Trim(rec[f.path]) else rec[f.path]) else None
  }

  /**
   * Whether a test fails. `required` rejects `undefined` and ""; `min` and `max`
   * skip an absent value and compare the length otherwise.
   */
  predicate Violates(r: Rule, v: Option<string>) {
    match r
    case Required(_) => v.None? || v.value == ""
    case MinLength(n, _) => v.Some? && |v.value| < n
    case MaxLength(n, _) => v.Some? && |v.value| > n
  }

  function RuleErrors(path: string, rules: seq<Rule>, v: Option<string>): seq<ValidationError> {
    if rules == [] then []
    else (if Violates(rules[0], v) then [ValidationError(path, rules[0].message)] else [])
         + RuleErrors(path, rules[1..], v)
  }

  function FieldErrors(f: FieldRules, rec: Record): seq<ValidationError> {
    RuleErrors(f.path, f.rules, FieldValue(f, rec))
  }

  /** The declared paths of a rule set. */
  function Paths(schema: Schema): set<string> {
    if schema == [] then {} else {schema[0].path} + Paths(schema[1..])
  }

  /** `schema.validate(rec, { abortEarly: false })`: all errors of all fields, in declaration order. */
  function Validate(schema: Schema, rec: Record): seq<ValidationError> {
    if schema == [] then [] else FieldErrors(schema[0], rec) + Validate(schema[1..], rec)
  }

  function ErrorPaths(errs: seq<ValidationError>): set<string> {
    set e | e in errs :: e.path
  }

  /** The error for rule `j` of field `i`, when that rule fails. */
  predicate Reports(schema: Schema, rec: Record, i: int, j: int, e: ValidationError) {
    && 0 <= i < |schema| && 0 <= j < |schema[i].rules|
    && Violates(schema[i].rules[j], FieldValue(schema[i], rec))
    && e == ValidationError(schema[i].path, schema[i].rules[j].message)
  }

  lemma {:induction false} RuleErrorsExact(path: string, rules: seq<Rule>, v: Option<string>, e: ValidationError)
    ensures e in RuleErrors(path, rules, v) <==>
            exists j :: 0 <= j < |rules| && Violates(rules[j], v) && e == ValidationError(path, rules[j].message)
  {
    if rules != [] {
      RuleErrorsExact(path, rules[1..], v, e);
      if e in RuleErrors(path, rules[1..], v) {
        var j :| 0 <= j < |rules[1..]| && Violates(rules[1..][j], v) && e == ValidationError(path, rules[1..][j].message);
        assert rules[j + 1] == rules[1..][j];
      }
      if exists j :: 0 <= j < |rules| && Violates(rules[j], v) && e == ValidationError(path, rules[j].message) {
        var j :| 0 <= j < |rules| && Violates(rules[j], v) && e == ValidationError(path, rules[j].message);
        if j > 0 { assert rules[1..][j - 1] == rules[j]; }
      }
    }
  }

  /**
   * With `abortEarly: false` an error is reported exactly for each failing rule
   * of each field: nothing invented, nothing dropped.
   */
  lemma {:induction false} ValidateExact(schema: Schema, rec: Record, e: ValidationError)
    ensures e in Validate(schema, rec) <==> exists i, j :: Reports(schema, rec, i, j, e)
  {
    if schema != [] {
      ValidateExact(schema[1..], rec, e);
      RuleErrorsExact(schema[0].path, schema[0].rules, FieldValue(schema[0], rec), e);
      if e in Validate(schema[1..], rec) {
        var i, j :| Reports(schema[1..], rec, i, j, e);
        assert schema[1..][i] == schema[i + 1];
        assert Reports(schema, rec, i + 1, j, e);
      }
      if e in FieldErrors(schema[0], rec) {
        var j :| 0 <= j < |schema[0].rules| && Violates(schema[0].rules[j], FieldValue(schema[0], rec))
                 && e == ValidationError(schema[0].path, schema[0].rules[j].message);
        assert Reports(schema, rec, 0, j, e);
      }
      if exists i, j :: Reports(schema, rec, i, j, e) {
        var i, j :| Reports(schema, rec, i, j, e);
        if i > 0 {
          assert schema[1..][i - 1] == schema[i];
          assert Reports(schema[1..], rec, i - 1, j, e);
        }
      }
    }
  }

  /** The record passes exactly when every field passes on its own. */
  lemma {:induction false} ValidatePassesIff(schema: Schema, rec: Record)
    ensures Validate(schema, rec) == [] <==> forall i :: 0 <= i < |schema| ==> FieldErrors(schema[i], rec) == []
  {
    if schema != [] {
      ValidatePassesIff(schema[1..], rec);
      assert forall i :: 1 <= i < |schema| ==> schema[i] == schema[1..][i - 1];
    }
  }

  /** Every `required` rule reports its message on an absent or empty value. */
  lemma RequiredReported(schema: Schema, rec: Record, i: int)
    requires 0 <= i < |schema| && |schema[i].rules| > 0 && schema[i].rules[0].Required?
    requires FieldValue(schema[i], rec) == None || FieldValue(schema[i], rec) == Some("")
    ensures ValidationError(schema[i].path, schema[i].rules[0].message) in Validate(schema, rec)
  {
    var e := ValidationError(schema[i].path, schema[i].rules[0].message);
    assert Reports(schema, rec, i, 0, e);
    ValidateExact(schema, rec, e);
  }

  /** Each field's chain opens with `required`. */
  predicate AllRequired(schema: Schema) {
    forall i :: 0 <= i < |schema| ==> |schema[i].rules| > 0 && schema[i].rules[0].Required?
  }

  lemma SchemasAllRequired()
    ensures AllRequired(BookSchema) && AllRequired(NewspaperSchema) && AllRequired(CourseSchema)
  {
    forall i | 0 <= i < |BookSchema| ensures |BookSchema[i].rules| > 0 && BookSchema[i].rules[0].Required? {
      if i == 0 {} else if i == 1 {} else if i == 2 {} else {}
    }
    forall i | 0 <= i < |NewspaperSchema|
      ensures |NewspaperSchema[i].rules| > 0 && NewspaperSchema[i].rules[0].Required?
    {
      if i == 0 {} else {}
    }
    forall i | 0 <= i < |CourseSchema| ensures |CourseSchema[i].rules| > 0 && CourseSchema[i].rules[0].Required? {
      if i == 0 {} else if i == 1 {} else if i == 2 {} else {}
    }
  }

  /** In every rule set an empty string (after the field's own trimming) fails that field's `required` rule. */
  lemma EveryFieldRequired(schema: Schema, rec: Record, i: int, v: string)
    requires schema == BookSchema || schema == NewspaperSchema || schema == CourseSchema
    requires 0 <= i < |schema|
    requires (if schema[i].trims then Trim(v) else v) == ""
    ensures |schema[i].rules| > 0 && schema[i].rules[0].Required?
    ensures ValidationError(schema[i].path, schema[i].rules[0].message) in Validate(schema, rec[schema[i].path := v])
  {
    SchemasAllRequired();
    RequiredReported(schema, rec[schema[i].path := v], i);
  }

  /** A field reports an error exactly when one of its rules fails. */
  lemma FieldErrorPaths(f: FieldRules, rec: Record)
    ensures ErrorPaths(FieldErrors(f, rec)) == if FieldErrors(f, rec) == [] then {} else {f.path}
  {
    var errs := FieldErrors(f, rec);
    forall e | e in errs ensures e.path == f.path {
      RuleErrorsExact(f.path, f.rules, FieldValue(f, rec), e);
    }
    if errs != [] { assert errs[0] in errs; }
  }

  /** When no reported path is empty, no error has an empty path. */
  lemma NoEmptyPath(errs: seq<ValidationError>)
    requires "" !in ErrorPaths(errs)
    ensures forall e :: e in errs ==> e.path != ""
  {
    forall e | e in errs ensures e.path != "" {
      assert e.path in ErrorPaths(errs);
    }
  }

  lemma ErrorPathsConcat(a: seq<ValidationError>, b: seq<ValidationError>)
    ensures ErrorPaths(a + b) == ErrorPaths(a) + ErrorPaths(b)
  {
    assert forall e :: e in a + b <==> e in a || e in b;
  }

  /** The failing path of one field, if it fails. */
  function FieldPath(f: FieldRules, rec: Record): set<string> {
    if FieldErrors(f, rec) == [] then {} else {f.path}
  }

  lemma ValidatePaths1(a: FieldRules, rec: Record)
    ensures ErrorPaths(Validate([a], rec)) == FieldPath(a, rec)
  {
    assert [a][1..] == [];
    FieldErrorPaths(a, rec);
    assert Validate([a], rec) == FieldErrors(a, rec) + [];
  }

  lemma ValidatePathsCons(a: FieldRules, rest: Schema, rec: Record)
    ensures ErrorPaths(Validate([a] + rest, rec)) == FieldPath(a, rec) + ErrorPaths(Validate(rest, rec))
  {
    assert ([a] + rest)[1..] == rest;
    ErrorPathsConcat(FieldErrors(a, rec), Validate(rest, rec));
    FieldErrorPaths(a, rec);
  }

  /** A key no field declares is never read: changing or removing it changes no error. */
  lemma {:induction false} UndeclaredKeyIgnored(schema: Schema, rec: Record, k: string, v: string)
    requires k !in Paths(schema)
    ensures Validate(schema, rec[k := v]) == Validate(schema, rec) == Validate(schema, rec - {k})
  {
    if schema != [] {
      UndeclaredKeyIgnored(schema[1..], rec, k, v);
      assert FieldValue(schema[0], rec[k := v]) == FieldValue(schema[0], rec) == FieldValue(schema[0], rec - {k});
    }
  }

  // ----- what each rule set accepts, field by field -----

  lemma RulesOk1(p: string, a: Rule, v: Option<string>)
    ensures RuleErrors(p, [a], v) == [] <==> !Violates(a, v)
  {
    assert [a][1..] == [];
  }

  lemma RulesOk2(p: string, a: Rule, b: Rule, v: Option<string>)
    ensures RuleErrors(p, [a, b], v) == [] <==> !Violates(a, v) && !Violates(b, v)
  {
    assert [a, b][1..] == [b];
    RulesOk1(p, b, v);
  }

  lemma RulesOk3(p: string, a: Rule, b: Rule, c: Rule, v: Option<string>)
    ensures RuleErrors(p, [a, b, c], v) == [] <==> !Violates(a, v) && !Violates(b, v) && !Violates(c, v)
  {
    assert [a, b, c][1..] == [b, c];
    RulesOk2(p, b, c, v);
  }

  predicate BookTitleOk(rec: Record) { "title" in rec && 3 <= |Trim(rec["title"])| <= 100 }
  predicate BookDescriptionOk(rec: Record) { "description" in rec && |rec["description"]| >= 20 }
  predicate NonEmptyAt(rec: Record, key: string) { key in rec && rec[key] != "" }

  lemma BookTitlePath(rec: Record)
    ensures FieldPath(BookSchema[0], rec) == if BookTitleOk(rec) then {} else {"title"}
  {
    var f := BookSchema[0];
    RulesOk3(f.path, f.rules[0], f.rules[1], f.rules[2], FieldValue(f, rec));
  }

  lemma BookDescriptionPath(rec: Record)
    ensures FieldPath(BookSchema[1], rec) == if BookDescriptionOk(rec) then {} else {"description"}
  {
    var f := BookSchema[1];
    RulesOk2(f.path, f.rules[0], f.rules[1], FieldValue(f, rec));
  }

  lemma RequiredOnlyPath(f: FieldRules, rec: Record)
    requires !f.trims && |f.rules| == 1 && f.rules[0].Required?
    ensures FieldPath(f, rec) == if NonEmptyAt(rec, f.path) then {} else {f.path}
  {
    assert f.rules == [f.rules[0]];
    RulesOk1(f.path, f.rules[0], FieldValue(f, rec));
  }

  /** The failing paths of bookValidationSchema; price plays no part. */
  lemma BookSchemaPaths(rec: Record)
    ensures ErrorPaths(Validate(BookSchema, rec)) ==
            (if BookTitleOk(rec) then {} else {"title"})
            + (if BookDescriptionOk(rec) then {} else {"description"})
            + (if NonEmptyAt(rec, "image") then {} else {"image"})
            + (if NonEmptyAt(rec, "type") then {} else {"type"})
  {
    var s := BookSchema;
    ValidatePathsCons(s[0], s[1..], rec);
    ValidatePathsCons(s[1], s[2..], rec);
    ValidatePathsCons(s[2], s[3..], rec);
    ValidatePaths1(s[3], rec);
    assert ErrorPaths(Validate(s, rec)) ==
           FieldPath(s[0], rec) + FieldPath(s[1], rec) + FieldPath(s[2], rec) + FieldPath(s[3], rec);
    BookTitlePath(rec);
    BookDescriptionPath(rec);
    RequiredOnlyPath(s[2], rec);
    RequiredOnlyPath(s[3], rec);
  }

  predicate NewspaperTitleOk(rec: Record) { "title" in rec && 3 <= |Trim(rec["title"])| <= 100 }
  predicate NewspaperDescriptionOk(rec: Record) { "description" in rec && |rec["description"]| >= 10 }

  /** The failing paths of newspaperValidationSchema. */
  lemma NewspaperSchemaPaths(rec: Record)
    ensures ErrorPaths(Validate(NewspaperSchema, rec)) ==
            (if NewspaperTitleOk(rec) then {} else {"title"})
            + (if NewspaperDescriptionOk(rec) then {} else {"description"})
  {
    var s := NewspaperSchema;
    ValidatePathsCons(s[0], s[1..], rec);
    ValidatePaths1(s[1], rec);
    RulesOk3(s[0].path, s[0].rules[0], s[0].rules[1], s[0].rules[2], FieldValue(s[0], rec));
    RulesOk2(s[1].path, s[1].rules[0], s[1].rules[1], FieldValue(s[1], rec));
  }

  predicate MinLengthAt(rec: Record, key: string, n: nat) { key in rec && |rec[key]| >= n }

  lemma MinLengthPath(f: FieldRules, rec: Record, n: nat)
    requires !f.trims && |f.rules| == 2 && f.rules[0].Required? && f.rules[1].MinLength? && f.rules[1].min == n
    requires n > 0
    ensures FieldPath(f, rec) == if MinLengthAt(rec, f.path, n) then {} else {f.path}
  {
    assert f.rules == [f.rules[0], f.rules[1]];
    RulesOk2(f.path, f.rules[0], f.rules[1], FieldValue(f, rec));
  }

  /** The failing paths of courseValidationSchema: minimum lengths 3 and 5, no maximum anywhere. */
  lemma CourseSchemaPaths(rec: Record)
    ensures ErrorPaths(Validate(CourseSchema, rec)) ==
            (if MinLengthAt(rec, "name", 3) then {} else {"name"})
            + (if MinLengthAt(rec, "title", 5) then {} else {"title"})
            + (if NonEmptyAt(rec, "type") then {} else {"type"})
            + (if NonEmptyAt(rec, "image") then {} else {"image"})
  {
    var s := CourseSchema;
    ValidatePathsCons(s[0], s[1..], rec);
    ValidatePathsCons(s[1], s[2..], rec);
    ValidatePathsCons(s[2], s[3..], rec);
    ValidatePaths1(s[3], rec);
    assert ErrorPaths(Validate(s, rec)) ==
           FieldPath(s[0], rec) + FieldPath(s[1], rec) + FieldPath(s[2], rec) + FieldPath(s[3], rec);
    MinLengthPath(s[0], rec, 3);
    MinLengthPath(s[1], rec, 5);
    RequiredOnlyPath(s[2], rec);
    RequiredOnlyPath(s[3], rec);
  }

  /** The book rule set never reads `price`: setting or removing it changes no error. */
  lemma BookIgnoresPrice(rec: Record, price: string)
    ensures Validate(BookSchema, rec["price" := price]) == Validate(BookSchema, rec)
            == Validate(BookSchema, rec - {"price"})
  {
    assert Paths(BookSchema) == {"title", "description", "image", "type"};
    UndeclaredKeyIgnored(BookSchema, rec, "price", price);
  }
}
