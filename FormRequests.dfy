/** The backend's form-request validators (backend/app/Http/Requests): a
    small model of the Laravel rules they use, and the six rule tables. */
module FormRequests {
  import opened Common
  import opened PhpNumeric
  import Cameras

  /** A request input value: JSON or form scalars, arrays, and uploaded files. */
  datatype Input =
    | Null
    | Text(s: string)
    | Number(n: real)
    | Flag(b: bool)
    | Items(items: seq<Input>)
    | Record(fields: map<string, Input>)
    | Upload(isImage: bool, extension: string, kilobytes: int)

  /** The rules the tables use. `Exists` and `Unique` carry the column values
      the database query would see. */
  datatype Rule =
    | Required
    | Nullable
    | Sometimes
    | IsString
    | IsArray
    | IsBoolean
    | IsNumeric
    | IsFile
    | IsImage
    | Mimes(extensions: set<string>)
    | In(values: set<string>)
    | Max(limit: real)
    | Min(limit: real)
    | Between(low: real, high: real)
    | UpperAlnumPattern
    | Exists(values: set<string>)
    | Unique(taken: set<string>)

  /** `name` for a top-level field, `list.*.name` for a field of every element of a list. */
  datatype Attribute = Key(name: string) | Each(list: string, field: string)

  datatype RuleSet = RuleSet(attribute: Attribute, rules: seq<Rule>)

  /** Blank text: only characters that PHP's trim() removes, so that trim()
      leaves nothing (BlankIsTrimmedAway). */
  predicate IsBlank(v: Input)
  {
    v.Text? && forall i :: 0 <= i < |v.s| ==> v.s[i] in PhpTrimmed
  }

  lemma BlankIsTrimmedAway(s: string)
    ensures IsBlank(Text(s)) <==> Strip(s, PhpTrimmed) == []
  {
  }

  /** The `required` rule: present, not null, not blank text, not an empty array. */
  predicate Present(v: Option<Input>)
  {
    && v.Some?
    && !v.value.Null?
    && !IsBlank(v.value)
    && v.value != Items([])
    && v.value != Record(map[])
  }

  /** The number a value stands for under `numeric`: a JSON number, or numeric text. */
  function NumericValue(v: Input): Option<real>
  {
    match v
    case Number(n) => Some(n)
    case Text(s) => NumericText(s)
    case _ => None
  }

  /** The size that `max`, `min` and `between` compare: the value of a
      numeric value when the field has the `numeric` rule; otherwise the
      characters of text, the elements of an array, the kilobytes of a file. */
  function Size(v: Input, numeric: bool): real
  {
    if numeric && NumericValue(v).Some? then NumericValue(v).value
    else
      match v
      case Null => 0.0
      case Text(s) => |s| as real
      case Number(n) => n
      case Flag(b) => if b then 1.0 else 0.0
      case Items(items) => |items| as real
      case Record(fields) => |fields| as real
      case Upload(_, _, kb) => kb as real
  }

  /** `^[A-Z0-9]+$` as PCRE reads it: `$` also matches before one final newline. */
  predicate UpperAlnum(s: string)
  {
    s != [] && forall i :: 0 <= i < |s| ==> IsAsciiUpper(s[i]) || IsDigit(s[i])
  }

  predicate MatchesCodePattern(s: string)
  {
    UpperAlnum(s) || (|s| >= 2 && s[|s| - 1] == '\n' && UpperAlnum(s[..|s| - 1]))
  }

  /** Whether one rule holds of a value the rule is applied to; `numeric`
      tells whether the field's rules include `numeric`. */
  predicate Holds(v: Option<Input>, r: Rule, numeric: bool)
  {
    match r
    case Required => Present(v)
    case Nullable => true
    case Sometimes => true
    case IsString => v.Some? && v.value.Text?
    case IsArray => v.Some? && (v.value.Items? || v.value.Record?)
    case IsBoolean => v.Some? && (v.value.Flag? || v.value in {Number(0.0), Number(1.0), Text("0"), Text("1")})
    case IsNumeric => v.Some? && NumericValue(v.value).Some?
    case IsFile => v.Some? && v.value.Upload?
    case IsImage => v.Some? && v.value.Upload? && v.value.isImage
    case Mimes(exts) => v.Some? && v.value.Upload? && v.value.extension in exts
    case In(values) => v.Some? && v.value.Text? && v.value.s in values
    case Max(limit) => v.Some? && Size(v.value, numeric) <= limit
    case Min(limit) => v.Some? && Size(v.value, numeric) >= limit
    case Between(lo, hi) => v.Some? && lo <= Size(v.value, numeric) <= hi
    case UpperAlnumPattern => v.Some? && v.value.Text? && MatchesCodePattern(v.value.s)
    case Exists(values) => v.Some? && v.value.Text? && v.value.s in values
    case Unique(taken) => !(v.Some? && v.value.Text? && v.value.s in taken)
  }

  /** Only `required` is implicit: every other rule is skipped for an absent
      field, a blank string, and a null value under `nullable`. */
  predicate Applies(v: Option<Input>, rules: seq<Rule>, r: Rule)
  {
    r.Required? || (v.Some? && !IsBlank(v.value) && !(v.value.Null? && Nullable in rules))
  }

  /** A field passes when `sometimes` lets it be absent, or every rule that
      applies to it holds. */
  predicate FieldPasses(v: Option<Input>, rules: seq<Rule>)
  {
    (Sometimes in rules && v.None?) ||
    forall i :: 0 <= i < |rules| ==> Applies(v, rules, rules[i]) ==> Holds(v, rules[i], IsNumeric in rules)
  }

  function Lookup(input: map<string, Input>, k: string): Option<Input>
  {
    if k in input then Some(input[k]) else None
  }

  function FieldOf(element: Input, k: string): Option<Input>
  {
    if element.Record? then Lookup(element.fields, k) else None
  }

  /** The failing attribute names of one rule set. A wildcard expands over the
      keys of the array it names: the positions of a list, the names of an
      object. It matches nothing when that field is absent or not an array. */
  function RuleSetFailures(rs: RuleSet, input: map<string, Input>): (failed: set<string>)
  {
    match rs.attribute
    case Key(k) => if FieldPasses(Lookup(input, k), rs.rules) then {} else {k}
    case Each(list, k) =>
      if list in input && input[list].Items? then
        var items := input[list].items;
        set i | 0 <= i < |items| && !FieldPasses(FieldOf(items[i], k), rs.rules)
          :: list + "." + NatToDecimal(i) + "." + k
      else if list in input && input[list].Record? then
        var fields := input[list].fields;
        set name | name in fields && !FieldPasses(FieldOf(fields[name], k), rs.rules)
          :: list + "." + name + "." + k
      else {}
  }

  /** Every element of an array, list or object, passes the rules on its field `k`. */
  predicate ElementsPass(v: Input, k: string, rules: seq<Rule>)
  {
    && (v.Items? ==> forall i :: 0 <= i < |v.items| ==> FieldPasses(FieldOf(v.items[i], k), rules))
    && (v.Record? ==> forall name :: name in v.fields ==> FieldPasses(FieldOf(v.fields[name], k), rules))
  }

  function Failures(table: seq<RuleSet>, input: map<string, Input>): (failed: set<string>)
  {
    if table == [] then {} else RuleSetFailures(table[0], input) + Failures(table[1..], input)
  }

  /** A request passes validation when no attribute fails; otherwise the
      framework answers 422 with the failing attributes. */
  predicate Passes(table: seq<RuleSet>, input: map<string, Input>)
  {
    Failures(table, input) == {}
  }

  lemma {:induction false} PassesEach(table: seq<RuleSet>, input: map<string, Input>)
    ensures Passes(table, input) <==> forall j :: 0 <= j < |table| ==> RuleSetFailures(table[j], input) == {}
  {
    if table != [] {
      PassesEach(table[1..], input);
      assert forall j :: 1 <= j < |table| ==> table[j] == table[1..][j - 1];
    }
  }

  function TopKey(a: Attribute): string
  {
    match a
    case Key(k) => k
    case Each(list, _) => list
  }

  /** `validated()`: the input restricted to the fields the rules mention. */
  function Validated(table: seq<RuleSet>, input: map<string, Input>): (data: map<string, Input>)
    ensures data.Keys <= input.Keys
    ensures forall k :: k in data ==> data[k] == input[k] && exists j :: 0 <= j < |table| && TopKey(table[j].attribute) == k
    ensures forall j :: 0 <= j < |table| && TopKey(table[j].attribute) in input ==> TopKey(table[j].attribute) in data
  {
    map k | k in input && (exists j :: 0 <= j < |table| && TopKey(table[j].attribute) == k) :: input[k]
  }

  // ---------------------------------------------------------------------
  // The rule tables

  const CameraStatusNames: set<string> := {"active", "inactive", "maintenance"}
  const ViolationStatusNames: set<string> := {"pending", "reviewed", "resolved"}
  const DetailStatusNames: set<string> := {"unverified", "confirmed", "dismissed"}
  const SeverityNames: set<string> := {"low", "medium", "high"}
  const ImageExtensions: set<string> := {"jpg", "jpeg", "png", "webp"}

  /** CameraHeartbeatRequest. */
  function HeartbeatRules(cameraCodes: set<string>): seq<RuleSet>
  {
    [ RuleSet(Key("camera_code"), [Required, IsString, Exists(cameraCodes)]),
      RuleSet(Key("status"), [Nullable, IsString, In(CameraStatusNames)]) ]
  }

  /** ViolationStoreRequest. */
  function ViolationStoreRules(cameraCodes: set<string>, typeCodes: set<string>): seq<RuleSet>
  {
    [ RuleSet(Key("image"), [Required, IsFile, IsImage, Mimes(ImageExtensions), Max(10240.0)]),
      RuleSet(Key("camera_code"), [Required, Exists(cameraCodes)]),
      RuleSet(Key("notes"), [Nullable, IsString]),
      RuleSet(Key("violation_details"), [Required, IsArray, Min(1.0)]),
      RuleSet(Each("violation_details", "violation_code"), [Required, Exists(typeCodes)]),
      RuleSet(Each("violation_details", "confidence_score"), [Nullable, IsNumeric, Between(0.0, 1.0)]),
      RuleSet(Each("violation_details", "additional_info"), [Nullable, IsString]) ]
  }

  /** ViolationUpdateStatusRequest. */
  function ViolationUpdateStatusRules(): seq<RuleSet>
  {
    [ RuleSet(Key("status"), [Required, In(ViolationStatusNames)]),
      RuleSet(Key("notes"), [Nullable, IsString]) ]
  }

  /** ViolationDetailUpdateStatusRequest. */
  function DetailUpdateStatusRules(): seq<RuleSet>
  {
    [ RuleSet(Key("status"), [Required, In(DetailStatusNames)]),
      RuleSet(Key("additional_info"), [Nullable, IsString]) ]
  }

  /** ViolationTypeStoreRequest; `typeCodes` are the codes already stored. */
  function ViolationTypeStoreRules(typeCodes: set<string>): seq<RuleSet>
  {
    [ RuleSet(Key("name"), [Required, IsString, Max(255.0)]),
      RuleSet(Key("description"), [Nullable, IsString]),
      RuleSet(Key("code"), [Required, IsString, Max(20.0), UpperAlnumPattern, Unique(typeCodes)]),
      RuleSet(Key("severity"), [Required, In(SeverityNames)]),
      RuleSet(Key("is_active"), [Required, IsBoolean]) ]
  }

  /** The codes of every stored type except the one being updated: the unique
      rule ignores the route's own record. */
  function CodesOfOthers(types: map<int, string>, ignoredId: int): (codes: set<string>)
    ensures forall id :: id in types && id != ignoredId ==> types[id] in codes
    ensures forall c :: c in codes ==> exists id :: id in types && id != ignoredId && types[id] == c
  {
    set id | id in types && id != ignoredId :: types[id]
  }

  /** ViolationTypeUpdateRequest. */
  function ViolationTypeUpdateRules(types: map<int, string>, ignoredId: int): seq<RuleSet>
  {
    [ RuleSet(Key("name"), [Sometimes, IsString, Max(255.0)]),
      RuleSet(Key("description"), [Sometimes, Nullable, IsString]),
      RuleSet(Key("code"), [Sometimes, IsString, Max(20.0), UpperAlnumPattern, Unique(CodesOfOthers(types, ignoredId))]),
      RuleSet(Key("severity"), [Sometimes, In(SeverityNames)]),
      RuleSet(Key("is_active"), [Sometimes, IsBoolean]) ]
  }

  // ---------------------------------------------------------------------
  // Reading a rule table field by field

  /** A top-level rule set fails exactly when its field fails. */
  lemma KeyFailures(rs: RuleSet, input: map<string, Input>)
    requires rs.attribute.Key?
    ensures RuleSetFailures(rs, input) == {} <==> FieldPasses(Lookup(input, rs.attribute.name), rs.rules)
  {
  }

  /** A wildcard rule set fails exactly when the field of some element of the
      list or object fails. */
  lemma EachFailures(rs: RuleSet, input: map<string, Input>)
    requires rs.attribute.Each?
    ensures RuleSetFailures(rs, input) == {} <==>
      (rs.attribute.list in input ==> ElementsPass(input[rs.attribute.list], rs.attribute.field, rs.rules))
  {
    var list, k := rs.attribute.list, rs.attribute.field;
    if list in input && input[list].Items? {
      var items := input[list].items;
      if exists i :: 0 <= i < |items| && !FieldPasses(FieldOf(items[i], k), rs.rules) {
        var i :| 0 <= i < |items| && !FieldPasses(FieldOf(items[i], k), rs.rules);
        assert list + "." + NatToDecimal(i) + "." + k in RuleSetFailures(rs, input);
      }
    } else if list in input && input[list].Record? {
      var fields := input[list].fields;
      if exists name :: name in fields && !FieldPasses(FieldOf(fields[name], k), rs.rules) {
        var name :| name in fields && !FieldPasses(FieldOf(fields[name], k), rs.rules);
        assert list + "." + name + "." + k in RuleSetFailures(rs, input);
      }
    }
  }

  /** A required field passes when it is present and its other rules hold. */
  lemma RequiredField(v: Option<Input>, rules: seq<Rule>)
    requires |rules| >= 1 && rules[0] == Required && Sometimes !in rules
    ensures FieldPasses(v, rules) <==> Present(v) && forall i :: 1 <= i < |rules| ==> Holds(v, rules[i], IsNumeric in rules)
  {
    if Present(v) {
      assert forall i :: 0 <= i < |rules| ==> Applies(v, rules, rules[i]);
    } else {
      assert Applies(v, rules, rules[0]);
    }
  }

  lemma RequiredAll(v: Option<Input>, rules: seq<Rule>)
    requires |rules| >= 1 && rules[0] == Required && Sometimes !in rules
    requires FieldPasses(v, rules)
    ensures Present(v) && forall i :: 0 <= i < |rules| ==> Holds(v, rules[i], IsNumeric in rules)
  {
    RequiredField(v, rules);
  }

  /** A nullable, optional field passes when absent, null or blank, or when all its rules hold. */
  lemma NullableField(v: Option<Input>, rules: seq<Rule>)
    requires Nullable in rules && Required !in rules && Sometimes !in rules
    ensures FieldPasses(v, rules) <==>
      v.None? || v.value.Null? || IsBlank(v.value) || forall i :: 0 <= i < |rules| ==> Holds(v, rules[i], IsNumeric in rules)
  {
  }

  /** An optional field under `sometimes` passes when absent, or when each applicable rule holds. */
  lemma SometimesField(v: Option<Input>, rules: seq<Rule>)
    requires Sometimes in rules && Required !in rules
    ensures FieldPasses(v, rules) <==>
      v.None? || (v.value.Null? && Nullable in rules) || IsBlank(v.value) ||
      forall i :: 0 <= i < |rules| ==> Holds(v, rules[i], IsNumeric in rules)
  {
  }

  // ---------------------------------------------------------------------
  // What each table accepts

  /** A field with a blank-or-null-tolerant enumeration: absent, null, blank,
      or one of the names. */
  predicate OptionalEnum(v: Option<Input>, names: set<string>)
  {
    v.None? || v.value.Null? || IsBlank(v.value) || (v.value.Text? && v.value.s in names)
  }

  predicate OptionalText(v: Option<Input>)
  {
    v.None? || v.value.Null? || IsBlank(v.value) || v.value.Text?
  }

  lemma OptionalEnumField(v: Option<Input>, names: set<string>)
    ensures FieldPasses(v, [Nullable, IsString, In(names)]) <==> OptionalEnum(v, names)
  {
    var rules := [Nullable, IsString, In(names)];
    assert Required !in rules && Sometimes !in rules;
    NullableField(v, rules);
    ThreeRulesHold(v, Nullable, IsString, In(names), false);
  }

  lemma ThreeRulesHold(v: Option<Input>, a: Rule, b: Rule, c: Rule, numeric: bool)
    ensures (forall i :: 0 <= i < 3 ==> Holds(v, [a, b, c][i], numeric)) <==>
      Holds(v, a, numeric) && Holds(v, b, numeric) && Holds(v, c, numeric)
  {
    var rules := [a, b, c];
    assert rules[0] == a && rules[1] == b && rules[2] == c;
  }

  lemma OptionalTextField(v: Option<Input>)
    ensures FieldPasses(v, [Nullable, IsString]) <==> OptionalText(v)
  {
    var rules := [Nullable, IsString];
    NullableField(v, rules);
    assert (forall i :: 0 <= i < 2 ==> Holds(v, rules[i], false)) <==> Holds(v, rules[0], false) && Holds(v, rules[1], false);
  }

  /** A required field with one more rule passes when present and that rule holds. */
  lemma RequiredWithOne(v: Option<Input>, b: Rule)
    requires b != Sometimes
    ensures FieldPasses(v, [Required, b]) <==> Present(v) && Holds(v, b, b == IsNumeric)
  {
    var rules := [Required, b];
    assert rules[0] == Required && rules[1] == b && Sometimes !in rules;
    RequiredField(v, rules);
  }

  /** A required field with two more rules passes when present and both hold. */
  lemma RequiredWithTwo(v: Option<Input>, b: Rule, c: Rule)
    requires b != Sometimes && c != Sometimes
    ensures var numeric := b == IsNumeric || c == IsNumeric;
      FieldPasses(v, [Required, b, c]) <==> Present(v) && Holds(v, b, numeric) && Holds(v, c, numeric)
  {
    var rules := [Required, b, c];
    assert rules[0] == Required && rules[1] == b && rules[2] == c && Sometimes !in rules;
    RequiredField(v, rules);
  }

  lemma KnownStringField(v: Option<Input>, known: set<string>)
    ensures FieldPasses(v, [Required, IsString, Exists(known)]) <==> Present(v) && v.value.Text? && v.value.s in known
    ensures FieldPasses(v, [Required, Exists(known)]) <==> Present(v) && v.value.Text? && v.value.s in known
    ensures FieldPasses(v, [Required, In(known)]) <==> Present(v) && v.value.Text? && v.value.s in known
  {
    RequiredWithTwo(v, IsString, Exists(known));
    RequiredWithOne(v, Exists(known));
    RequiredWithOne(v, In(known));
  }

  /** The j-th rule set of a passing table, when it is a top-level key, passes on its field. */
  lemma TableField(table: seq<RuleSet>, j: nat, input: map<string, Input>)
    requires j < |table| && table[j].attribute.Key?
    requires forall j :: 0 <= j < |table| ==> RuleSetFailures(table[j], input) == {}
    ensures FieldPasses(Lookup(input, table[j].attribute.name), table[j].rules)
  {
    KeyFailures(table[j], input);
  }

  lemma BoundedTextField(v: Option<Input>, limit: real)
    requires FieldPasses(v, [Required, IsString, Max(limit)])
    ensures Present(v) && v.value.Text? && |v.value.s| as real <= limit
  {
    RequiredWithTwo(v, IsString, Max(limit));
  }

  lemma CodeField(v: Option<Input>, taken: set<string>)
    requires FieldPasses(v, [Required, IsString, Max(20.0), UpperAlnumPattern, Unique(taken)])
    ensures Present(v) && v.value.Text? && |v.value.s| <= 20 && MatchesCodePattern(v.value.s)
    ensures v.value.s !in taken
  {
    RequiredWithFour(v, IsString, Max(20.0), UpperAlnumPattern, Unique(taken));
  }

  /** A passing required field with four more rules is present and all four hold. */
  lemma RequiredWithFour(v: Option<Input>, b: Rule, c: Rule, d: Rule, e: Rule)
    requires b != Sometimes && c != Sometimes && d != Sometimes && e != Sometimes
    requires FieldPasses(v, [Required, b, c, d, e])
    ensures var numeric := IsNumeric in [b, c, d, e];
      Present(v) && Holds(v, b, numeric) && Holds(v, c, numeric) && Holds(v, d, numeric) && Holds(v, e, numeric)
  {
    var rules := [Required, b, c, d, e];
    assert rules[0] == Required && rules[1] == b && rules[2] == c && rules[3] == d && rules[4] == e;
    assert Sometimes !in rules;
    RequiredAll(v, rules);
  }

  lemma BooleanField(v: Option<Input>)
    requires FieldPasses(v, [Required, IsBoolean])
    ensures Present(v) && Holds(v, IsBoolean, false)
  {
    RequiredWithOne(v, IsBoolean);
  }

  /** One accepted detail entry: an object naming a known violation type,
      whose confidence score, when given, is a number or numeric text in [0, 1]. */
  predicate DetailAccepted(e: Input, typeCodes: set<string>)
  {
    && e.Record? && "violation_code" in e.fields
    && e.fields["violation_code"].Text? && e.fields["violation_code"].s in typeCodes
    && ("confidence_score" in e.fields && !e.fields["confidence_score"].Null? && !IsBlank(e.fields["confidence_score"]) ==>
          NumericValue(e.fields["confidence_score"]).Some? &&
          0.0 <= NumericValue(e.fields["confidence_score"]).value <= 1.0)
  }

  /** The heartbeat payload: a known camera code, and a status that is absent,
      null, or one of the three status names. */
  lemma HeartbeatAccepts(input: map<string, Input>, cameraCodes: set<string>)
    ensures Passes(HeartbeatRules(cameraCodes), input) <==>
      && Present(Lookup(input, "camera_code"))
      && input["camera_code"].Text? && input["camera_code"].s in cameraCodes
      && OptionalEnum(Lookup(input, "status"), CameraStatusNames)
  {
    var table := HeartbeatRules(cameraCodes);
    PassesEach(table, input);
    assert Passes(table, input) <==> RuleSetFailures(table[0], input) == {} && RuleSetFailures(table[1], input) == {};
    KeyFailures(table[0], input);
    KeyFailures(table[1], input);
    KnownStringField(Lookup(input, "camera_code"), cameraCodes);
    OptionalEnumField(Lookup(input, "status"), CameraStatusNames);
  }

  /** An accepted heartbeat status names a camera status the controller understands. */
  lemma HeartbeatStatusParses(input: map<string, Input>, cameraCodes: set<string>)
    requires Passes(HeartbeatRules(cameraCodes), input)
    requires "status" in input && input["status"].Text? && !IsBlank(input["status"])
    ensures Cameras.ParseStatus(input["status"].s).Some?
  {
    HeartbeatAccepts(input, cameraCodes);
  }

  /** A violation status update: a status among pending, reviewed, resolved,
      and notes that are absent, null or text. */
  lemma UpdateStatusAccepts(input: map<string, Input>)
    ensures Passes(ViolationUpdateStatusRules(), input) <==>
      && Present(Lookup(input, "status"))
      && input["status"].Text? && input["status"].s in ViolationStatusNames
      && OptionalText(Lookup(input, "notes"))
  {
    var table := ViolationUpdateStatusRules();
    PassesEach(table, input);
    assert Passes(table, input) <==> RuleSetFailures(table[0], input) == {} && RuleSetFailures(table[1], input) == {};
    KeyFailures(table[0], input);
    KeyFailures(table[1], input);
    KnownStringField(Lookup(input, "status"), ViolationStatusNames);
    OptionalTextField(Lookup(input, "notes"));
  }

  /** A detail status update: a status among unverified, confirmed, dismissed,
      and additional_info that is absent, null or text. */
  lemma DetailUpdateStatusAccepts(input: map<string, Input>)
    ensures Passes(DetailUpdateStatusRules(), input) <==>
      && Present(Lookup(input, "status"))
      && input["status"].Text? && input["status"].s in DetailStatusNames
      && OptionalText(Lookup(input, "additional_info"))
  {
    var table := DetailUpdateStatusRules();
    PassesEach(table, input);
    assert Passes(table, input) <==> RuleSetFailures(table[0], input) == {} && RuleSetFailures(table[1], input) == {};
    KeyFailures(table[0], input);
    KeyFailures(table[1], input);
    KnownStringField(Lookup(input, "status"), DetailStatusNames);
    OptionalTextField(Lookup(input, "additional_info"));
  }

  /** Only status and notes survive validation, so a status update can write no other column. */
  lemma UpdateStatusValidatedKeys(input: map<string, Input>)
    ensures Validated(ViolationUpdateStatusRules(), input).Keys <= {"status", "notes"}
  {
    var table := ViolationUpdateStatusRules();
    forall k | k in Validated(table, input) ensures k in {"status", "notes"} {
      var j :| 0 <= j < |table| && TopKey(table[j].attribute) == k;
    }
  }

  /** A new violation type: a name of at most 255 characters; a code of at
      most 20 characters, upper-case letters and digits (a final newline
      tolerated by `$`), not yet taken; a severity among low, medium, high; a
      boolean is_active. */
  lemma TypeStoreAccepted(input: map<string, Input>, typeCodes: set<string>)
    requires Passes(ViolationTypeStoreRules(typeCodes), input)
    ensures "name" in input && input["name"].Text? && |input["name"].s| <= 255
    ensures "code" in input && input["code"].Text?
    ensures |input["code"].s| <= 20 && MatchesCodePattern(input["code"].s)
    ensures input["code"].s !in typeCodes
    ensures "severity" in input && input["severity"].Text? && input["severity"].s in SeverityNames
    ensures "is_active" in input && Holds(Some(input["is_active"]), IsBoolean, false)
  {
    var table := ViolationTypeStoreRules(typeCodes);
    PassesEach(table, input);
    TableField(table, 0, input);
    TableField(table, 2, input);
    TableField(table, 3, input);
    TableField(table, 4, input);
    BoundedTextField(Lookup(input, "name"), 255.0);
    CodeField(Lookup(input, "code"), typeCodes);
    KnownStringField(Lookup(input, "severity"), SeverityNames);
    BooleanField(Lookup(input, "is_active"));
  }

  /** The underscore in a seeded code such as NO_APRON is outside the pattern,
      so the store validator refuses it. */
  lemma UnderscoreCodeRejected(input: map<string, Input>, typeCodes: set<string>)
    requires "code" in input && input["code"] == Text("NO_APRON")
    ensures !Passes(ViolationTypeStoreRules(typeCodes), input)
  {
    assert !UpperAlnum("NO_APRON") by { assert "NO_APRON"[2] == '_'; }
    if Passes(ViolationTypeStoreRules(typeCodes), input) {
      TypeStoreAccepted(input, typeCodes);
    }
  }

  /** On update, a field that is absent is not validated at all. */
  lemma TypeUpdateAbsentFields(types: map<int, string>, ignoredId: int)
    ensures Passes(ViolationTypeUpdateRules(types, ignoredId), map[])
  {
    var table := ViolationTypeUpdateRules(types, ignoredId);
    PassesEach(table, map[]);
    forall j | 0 <= j < |table| ensures RuleSetFailures(table[j], map[]) == {} {
      assert Sometimes in table[j].rules by { assert table[j].rules[0] == Sometimes; }
    }
  }

  /** A field under `sometimes` with four more rules passes when all four hold. */
  lemma SometimesWithFour(v: Option<Input>, b: Rule, c: Rule, d: Rule, e: Rule)
    requires var numeric := IsNumeric in [b, c, d, e];
      Holds(v, b, numeric) && Holds(v, c, numeric) && Holds(v, d, numeric) && Holds(v, e, numeric)
    ensures FieldPasses(v, [Sometimes, b, c, d, e])
  {
    var rules := [Sometimes, b, c, d, e];
    var numeric := IsNumeric in [b, c, d, e];
    assert numeric == (IsNumeric in rules);
    forall i | 0 <= i < |rules| ensures Holds(v, rules[i], numeric) {
      if i == 0 {
        assert rules[i] == Sometimes;
      } else if i == 1 {
        assert rules[i] == b;
      } else if i == 2 {
        assert rules[i] == c;
      } else if i == 3 {
        assert rules[i] == d;
      } else {
        assert rules[i] == e;
      }
    }
  }

  /** On update, a type may keep its own code: the uniqueness check ignores it. */
  lemma TypeUpdateKeepsOwnCode(types: map<int, string>, id: int, input: map<string, Input>)
    requires id in types && input == map["code" := Text(types[id])]
    requires UpperAlnum(types[id]) && |types[id]| <= 20
    requires forall other :: other in types && other != id ==> types[other] != types[id]
    ensures Passes(ViolationTypeUpdateRules(types, id), input)
  {
    var table := ViolationTypeUpdateRules(types, id);
    PassesEach(table, input);
    assert types[id] !in CodesOfOthers(types, id);
    forall j | 0 <= j < |table| ensures RuleSetFailures(table[j], input) == {} {
      if j == 2 {
        var v := Lookup(input, "code");
        assert v == Some(Text(types[id]));
        assert Holds(v, Max(20.0), false) && Holds(v, UpperAlnumPattern, false);
        SometimesWithFour(v, IsString, Max(20.0), UpperAlnumPattern, Unique(CodesOfOthers(types, id)));
      } else {
        assert Sometimes in table[j].rules by { assert table[j].rules[0] == Sometimes; }
        assert TopKey(table[j].attribute) !in input;
      }
    }
  }

  /** The j-th rule set of a passing table, when it is a wildcard, passes on
      the field of every element of its list or object. */
  lemma TableEach(table: seq<RuleSet>, j: nat, input: map<string, Input>)
    requires j < |table| && table[j].attribute.Each?
    requires forall j :: 0 <= j < |table| ==> RuleSetFailures(table[j], input) == {}
    ensures table[j].attribute.list in input ==>
      ElementsPass(input[table[j].attribute.list], table[j].attribute.field, table[j].rules)
  {
    EachFailures(table[j], input);
  }

  lemma ImageField(v: Option<Input>)
    requires FieldPasses(v, [Required, IsFile, IsImage, Mimes(ImageExtensions), Max(10240.0)])
    ensures Present(v) && v.value.Upload? && v.value.isImage
    ensures v.value.extension in ImageExtensions && v.value.kilobytes <= 10240
  {
    var rules := [Required, IsFile, IsImage, Mimes(ImageExtensions), Max(10240.0)];
    RequiredAll(v, rules);
    assert Holds(v, rules[2], false) && Holds(v, rules[3], false) && Holds(v, rules[4], false);
  }

  lemma NonEmptyListField(v: Option<Input>)
    requires FieldPasses(v, [Required, IsArray, Min(1.0)])
    ensures Present(v) && (v.value.Items? || v.value.Record?)
    ensures v.value.Items? ==> |v.value.items| >= 1
    ensures v.value.Record? ==> |v.value.fields| >= 1
  {
    var rules := [Required, IsArray, Min(1.0)];
    RequiredAll(v, rules);
    assert Holds(v, rules[1], false) && Holds(v, rules[2], false);
  }

  /** A confidence score passes when absent, null or blank, or when it is a
      number, or numeric text, whose value lies in [0, 1]. */
  lemma ScoreField(v: Option<Input>)
    ensures FieldPasses(v, [Nullable, IsNumeric, Between(0.0, 1.0)]) <==>
      v.None? || v.value.Null? || IsBlank(v.value) ||
      (NumericValue(v.value).Some? && 0.0 <= NumericValue(v.value).value <= 1.0)
  {
    var rules := [Nullable, IsNumeric, Between(0.0, 1.0)];
    assert Required !in rules && Sometimes !in rules && IsNumeric in rules;
    NullableField(v, rules);
    ThreeRulesHold(v, Nullable, IsNumeric, Between(0.0, 1.0), true);
  }

  /** A printed number sent as a confidence score is accepted exactly when its
      value lies in [0, 1]. */
  lemma ScoreTextAccepted(d: Decimal)
    ensures FieldPasses(Some(Text(DecimalText(d))), [Nullable, IsNumeric, Between(0.0, 1.0)]) <==>
      0.0 <= DecimalValue(d) <= 1.0
  {
    var s := DecimalText(d);
    var body := UnsignedText(d.whole, d.fraction);
    assert s[0] == (if d.negative then '-' else body[0]) && s[0] !in PhpTrimmed;
    NumericTextOfDecimal(d);
    ScoreField(Some(Text(s)));
  }

  /** The details of a new violation: at least one entry, each naming a known
      violation type, with a confidence score, when given, in [0, 1]; a known
      camera; an image file of an accepted type and size. */
  lemma ViolationStoreAccepted(input: map<string, Input>, cameraCodes: set<string>, typeCodes: set<string>)
    requires Passes(ViolationStoreRules(cameraCodes, typeCodes), input)
    ensures "image" in input && input["image"].Upload? && input["image"].isImage
    ensures input["image"].extension in ImageExtensions && input["image"].kilobytes <= 10240
    ensures "camera_code" in input && input["camera_code"].Text? && input["camera_code"].s in cameraCodes
    ensures "violation_details" in input
    ensures input["violation_details"].Items? || input["violation_details"].Record?
    ensures input["violation_details"].Items? ==>
      && |input["violation_details"].items| >= 1
      && forall i :: 0 <= i < |input["violation_details"].items| ==>
           DetailAccepted(input["violation_details"].items[i], typeCodes)
    ensures input["violation_details"].Record? ==>
      && |input["violation_details"].fields| >= 1
      && forall name :: name in input["violation_details"].fields ==>
           DetailAccepted(input["violation_details"].fields[name], typeCodes)
  {
    ViolationStoreFields(input, cameraCodes, typeCodes);
    ImageField(Lookup(input, "image"));
    KnownStringField(Lookup(input, "camera_code"), cameraCodes);
    NonEmptyListField(Lookup(input, "violation_details"));
    var details := input["violation_details"];
    if details.Items? {
      forall i | 0 <= i < |details.items| ensures DetailAccepted(details.items[i], typeCodes) {
        EntryAccepted(details.items[i], typeCodes);
      }
    } else {
      forall name | name in details.fields ensures DetailAccepted(details.fields[name], typeCodes) {
        EntryAccepted(details.fields[name], typeCodes);
      }
    }
  }

  /** One element whose code and score fields pass their rule sets is an accepted entry. */
  lemma EntryAccepted(e: Input, typeCodes: set<string>)
    requires FieldPasses(FieldOf(e, "violation_code"), [Required, Exists(typeCodes)])
    requires FieldPasses(FieldOf(e, "confidence_score"), [Nullable, IsNumeric, Between(0.0, 1.0)])
    ensures DetailAccepted(e, typeCodes)
  {
    KnownStringField(FieldOf(e, "violation_code"), typeCodes);
    ScoreField(FieldOf(e, "confidence_score"));
  }

  /** The rule sets of a passing upload, field by field. */
  lemma ViolationStoreFields(input: map<string, Input>, cameraCodes: set<string>, typeCodes: set<string>)
    requires Passes(ViolationStoreRules(cameraCodes, typeCodes), input)
    ensures FieldPasses(Lookup(input, "image"), [Required, IsFile, IsImage, Mimes(ImageExtensions), Max(10240.0)])
    ensures FieldPasses(Lookup(input, "camera_code"), [Required, Exists(cameraCodes)])
    ensures FieldPasses(Lookup(input, "violation_details"), [Required, IsArray, Min(1.0)])
    ensures "violation_details" in input ==>
      && ElementsPass(input["violation_details"], "violation_code", [Required, Exists(typeCodes)])
      && ElementsPass(input["violation_details"], "confidence_score", [Nullable, IsNumeric, Between(0.0, 1.0)])
  {
    var table := ViolationStoreRules(cameraCodes, typeCodes);
    PassesEach(table, input);
    TableField(table, 0, input);
    TableField(table, 1, input);
    TableField(table, 3, input);
    TableEach(table, 4, input);
    TableEach(table, 5, input);
  }

  /** Details sent as one JSON-encoded string are not an array: the upload is refused. */
  lemma DetailsAsTextRejected(input: map<string, Input>, cameraCodes: set<string>, typeCodes: set<string>)
    requires "violation_details" in input && input["violation_details"].Text?
    ensures !Passes(ViolationStoreRules(cameraCodes, typeCodes), input)
  {
    if Passes(ViolationStoreRules(cameraCodes, typeCodes), input) {
      ViolationStoreAccepted(input, cameraCodes, typeCodes);
    }
  }
  /** Details sent as an object are validated entry by entry: an entry
      without a violation code is refused. */
  lemma ObjectEntryWithoutCodeRejected(input: map<string, Input>, cameraCodes: set<string>, typeCodes: set<string>)
    requires "violation_details" in input && input["violation_details"] == Record(map["a" := Record(map[])])
    ensures !Passes(ViolationStoreRules(cameraCodes, typeCodes), input)
  {
    if Passes(ViolationStoreRules(cameraCodes, typeCodes), input) {
      ViolationStoreAccepted(input, cameraCodes, typeCodes);
    }
  }
}
