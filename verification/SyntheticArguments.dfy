/** Schema-driven tool arguments and the malformed probe
    (platform/backend/app/verification/timeout_policy.py), judged by the
    keywords type, enum, const, minimum, minLength and required of JSON Schema
    Validation 2020-12 (sections 6.1, 6.2.4, 6.3.2 and 6.5.3) and the applicators properties, additionalProperties
    and items of JSON Schema Core 2020-12 (section 10.3). */
module SyntheticArguments {
  import opened Wrappers

  datatype Json =
    | Null
    | Bool(b: bool)
    | Num(n: real)
    | Str(s: string)
    | Arr(elements: seq<Json>)
    | Obj(members: map<string, Json>)

  datatype TypeName = NULL | BOOLEAN | OBJECT | ARRAY | NUMBER | INTEGER | STRING

  datatype TypeDecl = Untyped | One(name: TypeName) | Many(names: seq<TypeName>)

  /** A schema is a boolean or an object of keywords; no `properties` keyword
      is the same as an empty one. */
  datatype Schema =
    | BoolSchema(accepts: bool)
    | Keywords(
        constant: Option<Json>,
        default: Option<Json>,
        enumeration: Option<seq<Json>>,
        types: TypeDecl,
        properties: map<string, Schema>,
        additional: Option<Schema>,
        required: seq<string>,
        items: Option<Schema>,
        minimum: Option<real>,
        minLength: nat,
        format: Option<string>)

  const EMPTY_SCHEMA := Keywords(None, None, None, Untyped, map[], None, [], None, None, 0, None)

  const MAX_DEPTH := 4

  // ---- validation ---------------------------------------------------------

  predicate HasType(t: TypeName, v: Json) {
    match t
    case NULL => v.Null?
    case BOOLEAN => v.Bool?
    case OBJECT => v.Obj?
    case ARRAY => v.Arr?
    case NUMBER => v.Num?
    case INTEGER => v.Num? && v.n == v.n.Floor as real
    case STRING => v.Str?
  }

  predicate Admits(types: TypeDecl, v: Json) {
    match types
    case Untyped => true
    case One(t) => HasType(t, v)
    case Many(ts) => exists i :: 0 <= i < |ts| && HasType(ts[i], v)
  }

  predicate Valid(s: Schema, v: Json)
    decreases s
  {
    match s
    case BoolSchema(accepts) => accepts
    case Keywords(constant, _, enumeration, types, properties, additional, required, items, minimum, minLength, _) =>
      && Admits(types, v)
      && (constant.Some? ==> v == constant.value)
      && (enumeration.Some? ==> v in enumeration.value)
      && (v.Num? && minimum.Some? ==> v.n >= minimum.value)
      && (v.Str? ==> |v.s| >= minLength)
      && (v.Obj? ==>
            && (forall i :: 0 <= i < |required| ==> required[i] in v.members)
            && (forall k :: k in properties && k in v.members ==> Valid(properties[k], v.members[k]))
            && (additional.Some? ==>
                  forall k :: k in v.members && k !in properties ==> Valid(additional.value, v.members[k])))
      && (v.Arr? && items.Some? ==>
            forall i :: 0 <= i < |v.elements| ==> Valid(items.value, v.elements[i]))
  }

  // ---- generation ---------------------------------------------------------

  /** The first declared type other than null, or the first of all. */
  function FirstNonNull(names: seq<TypeName>): (t: Option<TypeName>)
    ensures t.Some? ==> exists i :: 0 <= i < |names| && names[i] == t.value
                                    && forall j :: 0 <= j < i ==> names[j] == NULL
    ensures t == Some(NULL) ==> forall i :: 0 <= i < |names| ==> names[i] == NULL
    ensures t.None? <==> names == []
  {
    if names == [] then None
    else if names[0] != NULL then Some(names[0])
    else
      var later := FirstNonNull(names[1..]);
      if later.Some? && later != Some(NULL) then later else Some(names[0])
  }

  function Declared(types: TypeDecl): Option<TypeName> {
    match types
    case Untyped => None
    case One(t) => Some(t)
    case Many(ts) => FirstNonNull(ts)
  }

  /** `int(x)`: towards zero. */
  function Truncate(x: real): int {
    if x >= 0.0 then x.Floor else -(-x).Floor
  }

  /** `minimum or 1`: zero counts as absent. */
  function MinimumOrOne(minimum: Option<real>): real {
    if minimum.None? || minimum.value == 0.0 then 1.0 else minimum.value
  }

  function Repeat(c: char, n: nat): string {
    seq(n, _ => c)
  }

  function PlaceholderString(format: Option<string>, minLength: nat): string {
    if format == Some("uri") then "https://example.com"
    else if format == Some("date-time") then "2026-01-01T00:00:00Z"
    else if format == Some("date") then "2026-01-01"
    else if format == Some("email") then "user@example.com"
    else if format == Some("uuid") then "00000000-0000-0000-0000-000000000000"
    else if minLength > 0 then Repeat('x', minLength)
    else "test"
  }

  /** The value a schema itself nominates. */
  function Nominated(s: Schema): Option<Json>
    requires s.Keywords?
  {
    if s.constant.Some? then s.constant
    else if s.default.Some? then s.default
    else if s.enumeration.Some? && s.enumeration.value != [] then Some(s.enumeration.value[0])
    else None
  }

  /** `_args_from_schema`. */
  function ArgsFrom(s: Schema, depth: nat): map<string, Json>
    requires s.Keywords?
    decreases s, 0
  {
    if depth > MAX_DEPTH then map[]
    else
      map name | name in s.required && name in s.properties :: ValueFor(s.properties[name], depth + 1)
  }

  /** `_value_for_property`; a boolean schema counts as an empty one. */
  function ValueFor(s: Schema, depth: nat): Json
    decreases s, 1
  {
    if s.BoolSchema? then Str("test")
    else if Nominated(s).Some? then Nominated(s).value
    else
      match Declared(s.types)
      case Some(OBJECT) => Obj(ArgsFrom(s, depth))
      case Some(ARRAY) =>
        if s.items.Some? && s.items.value.Keywords? then
          var inner := ValueFor(s.items.value, depth + 1);
          if inner.Null? then Arr([]) else Arr([inner])
        else Arr([])
      case Some(INTEGER) => Num(Truncate(MinimumOrOne(s.minimum)) as real)
      case Some(NUMBER) => Num(MinimumOrOne(s.minimum))
      case Some(BOOLEAN) => Bool(false)
      case _ => Str(PlaceholderString(s.format, s.minLength))
  }

  /** The loop of `_args_from_schema` over the required names. */
  method FillRequired(s: Schema, depth: nat) returns (out: map<string, Json>)
    requires s.Keywords?
    ensures out == ArgsFrom(s, depth)
  {
    if depth > MAX_DEPTH {
      return map[];
    }
    out := map[];
    for i := 0 to |s.required|
      invariant out.Keys == set name | name in s.required[..i] && name in s.properties
      invariant forall name :: name in out ==> out[name] == ValueFor(s.properties[name], depth + 1)
    {
      var name := s.required[i];
      assert s.required[..i + 1] == s.required[..i] + [name];
      if name !in s.properties {
        continue;
      }
      out := out[name := ValueFor(s.properties[name], depth + 1)];
    }
    assert s.required[..|s.required|] == s.required;
  }

  // ---- when the arguments validate ----------------------------------------

  predicate RequiredDeclared(s: Schema)
    requires s.Keywords?
  {
    forall i :: 0 <= i < |s.required| ==> s.required[i] in s.properties
  }

  /** A schema its own author could satisfy: the literals it nominates are
      valid; otherwise its type is more than null, what it requires it also
      declares, and so on inside. */
  predicate WellFormed(s: Schema)
    decreases s
  {
    match s
    case BoolSchema(accepts) => accepts
    case Keywords(_, _, enumeration, types, properties, _, required, items, _, _, _) =>
      if Nominated(s).Some? then Valid(s, Nominated(s).value)
      else
        && enumeration.None?
        && (types.Untyped? || Declared(types) !in {None, Some(NULL)})
        && RequiredDeclared(s)
        && (forall k :: k in properties && k in required ==>
              WellFormed(properties[k]))
        && (items.Some? && items.value.Keywords? ==> WellFormed(items.value))
  }

  /** The lengths of the placeholders that a format stands for. */
  function FormatLength(format: Option<string>): Option<nat> {
    match format
    case Some("uri") => Some(19)
    case Some("date-time") => Some(20)
    case Some("date") => Some(10)
    case Some("email") => Some(16)
    case Some("uuid") => Some(36)
    case _ => None
  }

  /** The bounds a placeholder of this type keeps: an integer is cut towards
      zero, so a positive minimum must be whole; a format overrides the minimal
      length. */
  predicate BoundsKept(s: Schema)
    requires s.Keywords?
  {
    match Declared(s.types)
    case Some(INTEGER) => s.minimum.Some? && s.minimum.value > 0.0 ==> s.minimum.value == s.minimum.value.Floor as real
    case Some(NUMBER) => true
    case Some(BOOLEAN) => true
    case _ => FormatLength(s.format).Some? ==> s.minLength <= FormatLength(s.format).value
  }

  /** Along the parts the generator descends into, no object below the depth
      limit still requires anything, and every placeholder keeps its bounds. */
  predicate InReach(s: Schema, depth: nat)
    decreases s
  {
    if s.BoolSchema? || Nominated(s).Some? then true
    else
      match Declared(s.types)
      case Some(OBJECT) =>
        s.required == []
        || (depth <= 4
            && forall k :: k in s.properties && k in s.required ==>
                 InReach(s.properties[k], depth + 1))
      case Some(ARRAY) =>
        s.items.Some? && s.items.value.Keywords? ==> InReach(s.items.value, depth + 1)
      case _ => BoundsKept(s)
  }

  lemma DeclaredAdmitted(types: TypeDecl, v: Json)
    requires Declared(types).Some? && HasType(Declared(types).value, v)
    ensures Admits(types, v)
  {
    if types.Many? {
      var i :| 0 <= i < |types.names| && types.names[i] == Declared(types).value;
    }
  }

  /** The generated members cover what is required, if the depth allows. */
  lemma ObjectValid(s: Schema, depth: nat)
    requires s.Keywords? && s.constant.None? && s.enumeration.None? && RequiredDeclared(s)
    requires Admits(s.types, Obj(ArgsFrom(s, depth)))
    ensures Valid(s, Obj(ArgsFrom(s, depth))) <==>
            s.required == []
            || (depth <= 4
                && forall k :: k in s.properties && k in s.required ==>
                     Valid(s.properties[k], ValueFor(s.properties[k], depth + 1)))
  {
    if depth > 4 && s.required != [] {
      assert s.required[0] !in ArgsFrom(s, depth);
    }
  }

  lemma ArrayValid(s: Schema, depth: nat)
    requires s.Keywords? && s.constant.None? && s.enumeration.None? && Nominated(s).None?
    requires Declared(s.types) == Some(ARRAY)
    ensures Valid(s, ValueFor(s, depth)) <==>
            (s.items.Some? && s.items.value.Keywords? && !ValueFor(s.items.value, depth + 1).Null? ==>
               Valid(s.items.value, ValueFor(s.items.value, depth + 1)))
  {
    DeclaredAdmitted(s.types, ValueFor(s, depth));
    var v := ValueFor(s, depth);
    if v.elements != [] {
      assert Valid(s, v) <==> Valid(s.items.value, v.elements[0]);
    }
  }

  /** Over every well-formed schema, at every depth: the generated value is
      valid exactly when the schema is within reach of the generator. */
  lemma {:induction false} SyntheticValidIff(s: Schema, depth: nat)
    requires WellFormed(s)
    ensures Valid(s, ValueFor(s, depth)) <==> InReach(s, depth)
    decreases s, 1
  {
    if s.Keywords? && Nominated(s).None? {
      if Declared(s.types) == Some(OBJECT) {
        ObjectValidIff(s, depth);
      } else if Declared(s.types) == Some(ARRAY) {
        ArrayValid(s, depth);
        if s.items.Some? && s.items.value.Keywords? {
          SyntheticValidIff(s.items.value, depth + 1);
          if ValueFor(s.items.value, depth + 1).Null? {
            NullIsNominated(s.items.value, depth + 1);
          }
        }
      } else {
        ScalarValid(s, depth);
      }
    }
  }

  lemma {:induction false} ObjectValidIff(s: Schema, depth: nat)
    requires WellFormed(s) && s.Keywords? && Nominated(s).None? && Declared(s.types) == Some(OBJECT)
    ensures Valid(s, ValueFor(s, depth)) <==> InReach(s, depth)
    decreases s, 0
  {
    DeclaredAdmitted(s.types, Obj(ArgsFrom(s, depth)));
    forall k | k in s.properties && k in s.required
      ensures Valid(s.properties[k], ValueFor(s.properties[k], depth + 1)) <==> InReach(s.properties[k], depth + 1)
    {
      SyntheticValidIff(s.properties[k], depth + 1);
    }
    ObjectValid(s, depth);
  }

  lemma ScalarValid(s: Schema, depth: nat)
    requires s.Keywords? && s.constant.None? && s.enumeration.None? && Nominated(s).None?
    requires s.types.Untyped? || Declared(s.types) !in {None, Some(NULL), Some(OBJECT), Some(ARRAY)}
    ensures Valid(s, ValueFor(s, depth)) <==> BoundsKept(s)
  {
    if !s.types.Untyped? {
      DeclaredAdmitted(s.types, ValueFor(s, depth));
    }
  }

  /** The literals of a schema are honoured before its type: const over default
      over the first of a non-empty enum; and a boolean schema counts as an empty
      one, whatever it says. */
  lemma LiteralsHonoured(s: Schema, depth: nat)
    ensures s.BoolSchema? ==> ValueFor(s, depth) == ValueFor(EMPTY_SCHEMA, depth) == Str("test")
    ensures s.Keywords? ==>
              match (s.constant, s.default, s.enumeration)
              case (Some(c), _, _) => ValueFor(s, depth) == c
              case (None, Some(d), _) => ValueFor(s, depth) == d
              case (None, None, Some(e)) => |e| > 0 ==> ValueFor(s, depth) == e[0]
              case (None, None, None) => ValueFor(s, depth) == ValueFor(s.(enumeration := Some([])), depth)
  {
    if s.Keywords? && s.constant.None? && s.default.None? && s.enumeration.None? {
      assert ArgsFrom(s, depth) == ArgsFrom(s.(enumeration := Some([])), depth);
    }
  }

  /** Which scalar it is: the minimum, or 1 where there is none or it is zero, cut
      to its whole part for an integer; and without a format a string of just the
      minimal length, or "test"; a boolean is false. */
  lemma ScalarChosen(s: Schema, depth: nat)
    requires s.Keywords? && Nominated(s).None?
    ensures var v := ValueFor(s, depth);
            var least := if s.minimum.Some? && s.minimum.value != 0.0 then s.minimum.value else 1.0;
            && (Declared(s.types) == Some(BOOLEAN) ==> v == Bool(false))
            && (Declared(s.types) == Some(NUMBER) ==> v == Num(least))
            && (Declared(s.types) == Some(INTEGER) ==>
                  v.Num? && v.n == v.n.Floor as real
                  && if least > 0.0 then least - 1.0 < v.n <= least && v.n >= 0.0
                     else least <= v.n < least + 1.0 && v.n <= 0.0)
            && (Declared(s.types) == Some(STRING) && s.format.None? ==>
                  v.Str? && if s.minLength == 0 then v.s == "test" else |v.s| == s.minLength)
  {
  }

  /** The generator yields null only where the schema nominates it. */
  lemma NullIsNominated(s: Schema, depth: nat)
    requires s.Keywords? && ValueFor(s, depth).Null?
    ensures Nominated(s) == Some(Null) && InReach(s, depth)
  {
  }

  /** Bounds that a placeholder breaks: a fractional minimum of an integer, and a
      URI that must be long. */
  lemma BoundsBroken(depth: nat)
    ensures var s := EMPTY_SCHEMA.(types := One(INTEGER), minimum := Some(2.5));
            WellFormed(s) && ValueFor(s, depth) == Num(2.0) && !Valid(s, ValueFor(s, depth))
    ensures var s := EMPTY_SCHEMA.(types := One(STRING), format := Some("uri"), minLength := 30);
            WellFormed(s) && ValueFor(s, depth) == Str("https://example.com") && !Valid(s, ValueFor(s, depth))
  {
    var s := EMPTY_SCHEMA.(types := One(INTEGER), minimum := Some(2.5));
    assert (2.5).Floor == 2;
    SyntheticValidIff(s, depth);
    var t := EMPTY_SCHEMA.(types := One(STRING), format := Some("uri"), minLength := 30);
    SyntheticValidIff(t, depth);
  }

  // ---- the formats --------------------------------------------------------

  predicate Digits(s: string, from: nat, to: nat) {
    to <= |s| && forall i :: from <= i < to ==> '0' <= s[i] <= '9'
  }

  /** RFC 3339, section 5.6: a full date at the front. */
  predicate DateAtFront(s: string) {
    |s| >= 10 && Digits(s, 0, 4) && s[4] == '-' && Digits(s, 5, 7) && s[7] == '-' && Digits(s, 8, 10)
  }

  /** And the time in UTC after it. */
  predicate IsDateTime(s: string) {
    && |s| == 20 && DateAtFront(s) && s[10] == 'T' && Digits(s, 11, 13) && s[13] == ':' && Digits(s, 14, 16)
    && s[16] == ':' && Digits(s, 17, 19) && s[19] == 'Z'
  }

  /** RFC 4122, section 3. */
  predicate IsUuid(s: string) {
    && |s| == 36 && s[8] == '-' && s[13] == '-' && s[18] == '-' && s[23] == '-'
    && Digits(s, 0, 8) && Digits(s, 9, 13) && Digits(s, 14, 18) && Digits(s, 19, 23) && Digits(s, 24, 36)
  }

  /** Something on either side of the one `@`, which is at `i`. */
  predicate IsEmailAt(s: string, i: nat) {
    0 < i < |s| - 1 && forall k :: 0 <= k < |s| ==> (s[k] == '@' <==> k == i)
  }

  predicate IsEmail(s: string) {
    exists i: nat :: i < |s| && IsEmailAt(s, i)
  }

  lemma UriConforms()
    ensures "https://" < "https://example.com"
  {
    assert "https://example.com"[..8] == "https://";
  }

  lemma DateConforms()
    ensures DateAtFront("2026-01-01")
  {
  }

  lemma DateTimeConforms()
    ensures IsDateTime("2026-01-01T00:00:00Z")
  {
  }

  lemma EmailConforms()
    ensures IsEmail("user@example.com")
  {
    assert IsEmailAt("user@example.com", 4);
  }

  lemma UuidConforms()
    ensures IsUuid("00000000-0000-0000-0000-000000000000")
  {
  }

  /** Each placeholder has the shape its format asks for, whatever length the
      schema asks for. */
  lemma PlaceholdersConform(minLength: nat)
    ensures "https://" < PlaceholderString(Some("uri"), minLength)
    ensures IsDateTime(PlaceholderString(Some("date-time"), minLength))
    ensures DateAtFront(PlaceholderString(Some("date"), minLength))
    ensures |PlaceholderString(Some("date"), minLength)| == 10
    ensures IsEmail(PlaceholderString(Some("email"), minLength))
    ensures IsUuid(PlaceholderString(Some("uuid"), minLength))
  {
    hide IsUuid, IsEmail, IsDateTime, DateAtFront;
    UriConforms();
    DateConforms();
    DateTimeConforms();
    EmailConforms();
    UuidConforms();
  }

  // ---- the arguments of a tool --------------------------------------------

  datatype ToolSchema = ToolSchema(inputSchema: Option<Schema>, legacySchema: Option<Schema>)

  predicate Truthy(s: Option<Schema>) {
    s.Some? && s.value != EMPTY_SCHEMA && s.value != BoolSchema(false)
  }

  /** `inputSchema`, else `input_schema`, else an empty schema. */
  function InputSchema(t: ToolSchema): Schema {
    if Truthy(t.inputSchema) then t.inputSchema.value
    else if Truthy(t.legacySchema) then t.legacySchema.value
    else EMPTY_SCHEMA
  }

  function SyntheticArgs(t: ToolSchema): Json {
    var s := InputSchema(t);
    if s.BoolSchema? then Obj(map[]) else Obj(ArgsFrom(s, 0))
  }

  /** An argument schema: of object type if of any, without const or enum. */
  predicate ArgumentSchema(s: Schema) {
    s.Keywords? && s.constant.None? && s.enumeration.None? && Admits(s.types, Obj(map[]))
  }

  /** Synthetic arguments satisfy the input schema exactly when no required
      property nests requirements deeper than four levels, or has bounds that its
      placeholder breaks. */
  lemma SyntheticArgumentsIff(t: ToolSchema)
    requires var s := InputSchema(t); ArgumentSchema(s) && RequiredDeclared(s)
    requires var s := InputSchema(t);
             forall k :: k in s.properties && k in s.required ==>
               WellFormed(s.properties[k])
    ensures var s := InputSchema(t);
            Valid(s, SyntheticArgs(t)) <==>
            forall k :: k in s.properties && k in s.required ==>
              InReach(s.properties[k], 1)
  {
    var s := InputSchema(t);
    AdmitsAnyObject(s.types, ArgsFrom(s, 0));
    ObjectValid(s, 0);
    forall k | k in s.properties && k in s.required
      ensures Valid(s.properties[k], ValueFor(s.properties[k], 1)) <==> InReach(s.properties[k], 1)
    {
      SyntheticValidIff(s.properties[k], 1);
    }
  }

  lemma AdmitsAnyObject(types: TypeDecl, members: map<string, Json>)
    requires Admits(types, Obj(map[]))
    ensures Admits(types, Obj(members))
  {
    if types.Many? {
      var i :| 0 <= i < |types.names| && HasType(types.names[i], Obj(map[]));
      assert HasType(types.names[i], Obj(members));
    }
  }

  // ---- the malformed probe ------------------------------------------------

  const RESERVED := "__malformed_unexpected_field__"

  const GARBAGE := Obj(map["deeply" := Obj(map["nested" := Arr([Num(1.0), Num(2.0), Num(3.0)])])])

  /** A value of another type than a single declared one. */
  function WrongValue(types: TypeDecl): Option<Json> {
    match types
    case One(STRING) => Some(Num(12345.0))
    case One(INTEGER) => Some(Str("not-a-number"))
    case One(NUMBER) => Some(Str("not-a-number"))
    case One(BOOLEAN) => Some(Str("yes-please"))
    case One(OBJECT) => Some(Str("not-an-object"))
    case One(ARRAY) => Some(Obj(map["not" := Str("an-array")]))
    case _ => None
  }

  /** `malformed_arguments`. */
  function MalformedArgs(t: ToolSchema): map<string, Json> {
    var s := InputSchema(t);
    if s.BoolSchema? then map["__malformed__" := Obj(map["unexpected" := Bool(true)])]
    else
      var first := if s.required != [] && s.required[0] in s.properties
                   then s.properties[s.required[0]] else EMPTY_SCHEMA;
      var wrong := if first.Keywords? then WrongValue(first.types) else None;
      if wrong.Some? then map[s.required[0] := wrong.value] else map[RESERVED := GARBAGE]
  }

  /** Where some required name is not the reserved one, the probe never
      validates: it misses that name or gives it a value of another type. */
  lemma MalformedRejected(t: ToolSchema)
    requires InputSchema(t).Keywords?
    requires exists i :: 0 <= i < |InputSchema(t).required| && InputSchema(t).required[i] != RESERVED
    ensures !Valid(InputSchema(t), Obj(MalformedArgs(t)))
  {
    var s := InputSchema(t);
    var v := MalformedArgs(t);
    if RESERVED in v && v[RESERVED] == GARBAGE && |v| == 1 {
      var i :| 0 <= i < |s.required| && s.required[i] != RESERVED;
      assert v.Keys == {RESERVED} || s.required[0] in v;
    }
    if s.required[0] in v && s.required[0] in s.properties {
      assert !Valid(s, Obj(v)) || Valid(s.properties[s.required[0]], v[s.required[0]]);
    }
  }

  /** The probe is meant to be invalid. Where the reserved name means nothing
      to the schema, the probe is accepted exactly when the schema requires
      nothing and puts no limit on undeclared members that the probe breaks. */
  lemma MalformedAcceptedIff(t: ToolSchema)
    requires var s := InputSchema(t);
             ArgumentSchema(s) && RESERVED !in s.required && RESERVED !in s.properties
    ensures var s := InputSchema(t);
            Valid(s, Obj(MalformedArgs(t))) <==>
            s.required == [] && (s.additional.Some? ==> Valid(s.additional.value, GARBAGE))
  {
    var s := InputSchema(t);
    if s.required != [] {
      assert s.required[0] != RESERVED;
      MalformedRejected(t);
    } else {
      AdmitsAnyObject(s.types, map[RESERVED := GARBAGE]);
    }
  }
}
