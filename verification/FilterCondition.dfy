/** Comparison conditions of the run-filter language: `build_run_filter_condition`. */
module FilterCondition {
  import opened Wrappers
  import opened Text
  import opened MetadataKeys

  datatype Operator = Eq | NotEq | Gt | Gte | Lt | Lte | Contains

  datatype Target =
    | Project
    | Owner
    | Status
    | Name
    | RunId
    | CreatedAt
    | Tag(key: string, legacyKey: Option<string>)
    | Param(key: string, legacyKey: Option<string>)

  datatype Condition = Condition(target: Target, op: Operator, value: string)

  datatype ConditionError =
    | UnsupportedOperator
    | EmptyValue
    | OperatorNotAllowed
    | InvalidTimestamp
    | InvalidKey(reason: KeyError)
    | UnsupportedField

  /** `normalize_created_at_filter`, which only parses and prints dates, stays a parameter. */
  type Normalizer = string -> Option<string>

  // ------------------------------------------------------------------ operators and conditions

  function ParseOperator(raw: string): Result<Operator, ConditionError> {
    if raw == "=" then Ok(Eq)
    else if raw == "!=" then Ok(NotEq)
    else if raw == ">" then Ok(Gt)
    else if raw == ">=" then Ok(Gte)
    else if raw == "<" then Ok(Lt)
    else if raw == "<=" then Ok(Lte)
    else if raw == "~" then Ok(Contains)
    else Err(UnsupportedOperator)
  }

  predicate IsTextOperator(op: Operator) {
    op.Eq? || op.NotEq? || op.Contains?
  }

  function StripPrefix(s: string, prefix: string): Option<string> {
    if prefix <= s then Some(s[|prefix|..]) else None
  }

  function OrElse(first: Option<string>, second: Option<string>): Option<string> {
    if first.Some? then first else second
  }

  function TextCondition(target: Target, op: Operator, value: string): Result<Condition, ConditionError> {
    if IsTextOperator(op) then Ok(Condition(target, op, value)) else Err(OperatorNotAllowed)
  }

  function MetadataCondition(field: string, op: Operator, value: string): Result<Condition, ConditionError> {
    var tagKey := OrElse(StripPrefix(field, "tag."), StripPrefix(field, "tags."));
    var paramKey := OrElse(StripPrefix(field, "param."), StripPrefix(field, "params."));
    if tagKey.Some? then
      if !IsTextOperator(op) then Err(OperatorNotAllowed)
      else
        match CanonicalAndLegacyKey(tagKey.value, "tags")
        case Err(e) => Err(InvalidKey(e))
        case Ok((key, legacy)) => Ok(Condition(Tag(key, legacy), op, value))
    else if paramKey.Some? then
      if !IsTextOperator(op) then Err(OperatorNotAllowed)
      else
        match CanonicalAndLegacyKey(paramKey.value, "parameters")
        case Err(e) => Err(InvalidKey(e))
        case Ok((key, legacy)) => Ok(Condition(Param(key, legacy), op, value))
    else Err(UnsupportedField)
  }

  function PlainTarget(field: string): (target: Option<Target>)
    ensures target.Some? ==> !target.value.Tag? && !target.value.Param?
  {
    if field == "project" || field == "project_id" then Some(Project)
    else if field == "owner" || field == "owner_user_id" then Some(Owner)
    else if field == "status" then Some(Status)
    else if field == "name" then Some(Name)
    else if field == "id" || field == "run_id" then Some(RunId)
    else if field == "created_at" then Some(CreatedAt)
    else None
  }

  function PlainCondition(normalize: Normalizer, target: Target, op: Operator, value: string)
    : Result<Condition, ConditionError>
  {
    if target.CreatedAt? then
      if op.Contains? then Err(OperatorNotAllowed)
      else
        match normalize(value)
        case None => Err(InvalidTimestamp)
        case Some(stamp) => Ok(Condition(CreatedAt, op, stamp))
    else TextCondition(target, op, if target.Status? then Lower(value) else value)
  }

  function BuildCondition(normalize: Normalizer, fieldRaw: string, opRaw: string, valueRaw: string)
    : Result<Condition, ConditionError>
  {
    match ParseOperator(opRaw)
    case Err(e) => Err(e)
    case Ok(op) =>
      var field := Lower(Trim(fieldRaw));
      var value := Trim(valueRaw);
      if value == [] then Err(EmptyValue)
      else
        match PlainTarget(field)
        case Some(target) => PlainCondition(normalize, target, op, value)
        case None => MetadataCondition(field, op, value)
  }

  /** The conditions that some filter text can denote. */
  ghost predicate Buildable(normalize: Normalizer, c: Condition) {
    exists field, op, value :: BuildCondition(normalize, field, op, value) == Ok(c)
  }

  /** What the date printer owes its own parser: a printed timestamp reads back as itself. */
  ghost predicate StableNormalizer(normalize: Normalizer) {
    forall v :: normalize(v).Some? ==>
      var stamp := normalize(v).value;
      stamp != [] && Trimmed(stamp) && normalize(stamp) == Some(stamp)
  }

  // ------------------------------------------------------------------ printing a condition

  function OperatorText(op: Operator): (s: string)
    ensures ParseOperator(s) == Ok(op)
  {
    match op
    case Eq => "="
    case NotEq => "!="
    case Gt => ">"
    case Gte => ">="
    case Lt => "<"
    case Lte => "<="
    case Contains => "~"
  }

  function KeyText(key: string, legacyKey: Option<string>): string {
    if legacyKey.Some? then legacyKey.value else key
  }

  function FieldText(target: Target): string {
    match target
    case Project => "project"
    case Owner => "owner"
    case Status => "status"
    case Name => "name"
    case RunId => "run_id"
    case CreatedAt => "created_at"
    case Tag(key, legacyKey) => "tag." + KeyText(key, legacyKey)
    case Param(key, legacyKey) => "param." + KeyText(key, legacyKey)
  }

  // ------------------------------------------------------------------ a printed condition builds itself

  predicate IsKeyText(s: string) {
    forall i :: 0 <= i < |s| ==> IsKeyChar(s[i]) || s[i] == '.'
  }

  predicate IsLower(s: string) {
    forall i :: 0 <= i < |s| ==> LowerChar(s[i]) == s[i]
  }

  lemma {:induction false} NoSegmentError(segments: seq<string>)
    requires SegmentError(segments).None?
    ensures forall k :: 0 <= k < |segments| ==> IsKeyText(segments[k])
  {
    if segments != [] {
      NoSegmentError(segments[1..]);
      assert forall k :: 0 < k < |segments| ==> segments[k] == segments[1..][k - 1];
    }
  }

  lemma {:induction false} SplitKeyText(s: string)
    requires forall k :: 0 <= k < |Split(s, '.')| ==> IsKeyText(Split(s, '.')[k])
    ensures IsKeyText(s)
    decreases |s|
  {
    if s != [] {
      var parts, rest := Split(s, '.'), Split(s[1..], '.');
      if s[0] == '.' {
        assert forall k :: 0 <= k < |rest| ==> rest[k] == parts[k + 1];
      } else {
        assert parts[0][0] == s[0] && rest[0] == parts[0][1..];
        assert forall k :: 0 < k < |rest| ==> rest[k] == parts[k];
      }
      SplitKeyText(s[1..]);
      assert forall i :: 0 < i < |s| ==> s[i] == s[1..][i - 1];
    }
  }

  lemma {:induction false} CanonicalIsKeyText(trimmed: string, ns: string)
    requires CanonicalizeTrimmed(trimmed, ns).Ok?
    ensures trimmed != [] && IsKeyText(trimmed)
    ensures '.' in trimmed ==> CanonicalizeTrimmed(trimmed, ns).value == trimmed
  {
    var key := CanonicalizeTrimmed(trimmed, ns).value;
    NoSegmentError(Split(key, '.'));
    SplitKeyText(key);
    if '.' !in trimmed {
      assert forall i :: 0 <= i < |trimmed| ==> trimmed[i] == key[i + |ns| + 1];
    }
  }

  lemma {:induction false} CanonicalKeyStable(rawKey: string, ns: string)
    requires CanonicalAndLegacyKey(rawKey, ns).Ok?
    ensures var (key, legacy) := CanonicalAndLegacyKey(rawKey, ns).value;
            var text := KeyText(key, legacy);
            && text == Trim(rawKey) && text != [] && IsKeyText(text)
            && CanonicalAndLegacyKey(text, ns) == Ok((key, legacy))
  {
    hide CanonicalizeTrimmed, Trim, IsKeyText;
    TrimFixpoint(Trim(rawKey));
    CanonicalIsKeyText(Trim(rawKey), ns);
  }

  lemma TrimKeepsLower(s: string)
    requires IsLower(s)
    ensures IsLower(Trim(s))
  {
    var front := TrimStart(s);
    assert IsLower(front);
    assert Trim(s) == front[..|Trim(s)|];
  }

  /** Lowercase key text, such as every printed field, is unchanged by trimming and lowering. */
  predicate IsFieldText(s: string) {
    s != [] && IsKeyText(s) && IsLower(s)
  }

  lemma FieldTextFixpoint(s: string)
    requires IsFieldText(s)
    ensures Lower(Trim(s)) == s && Lower(s) == s
  {
    assert Trimmed(s);
    TrimFixpoint(s);
    assert Lower(s) == s;
  }

  lemma FieldTextAppend(a: string, b: string)
    requires IsFieldText(a) && IsFieldText(b)
    ensures IsFieldText(a + b)
  {
  }

  lemma StripAfter(prefix: string, text: string)
    ensures StripPrefix(prefix + text, prefix) == Some(text)
  {
    assert (prefix + text)[|prefix|..] == text;
  }

  lemma {:induction false} TagRoundTrip(op: Operator, value: string, rawKey: string)
    requires IsLower(rawKey) && IsTextOperator(op) && CanonicalAndLegacyKey(rawKey, "tags").Ok?
    ensures var (key, legacy) := CanonicalAndLegacyKey(rawKey, "tags").value;
            var text := FieldText(Tag(key, legacy));
            && IsFieldText(text) && "tag." <= text
            && MetadataCondition(text, op, value) == Ok(Condition(Tag(key, legacy), op, value))
  {
    hide CanonicalAndLegacyKey, Trim;
    CanonicalKeyStable(rawKey, "tags");
    TrimKeepsLower(rawKey);
    FieldTextAppend("tag.", Trim(rawKey));
    StripAfter("tag.", Trim(rawKey));
  }

  lemma {:induction false} ParamRoundTrip(op: Operator, value: string, rawKey: string)
    requires IsLower(rawKey) && IsTextOperator(op) && CanonicalAndLegacyKey(rawKey, "parameters").Ok?
    ensures var (key, legacy) := CanonicalAndLegacyKey(rawKey, "parameters").value;
            var text := FieldText(Param(key, legacy));
            && IsFieldText(text) && "param." <= text
            && MetadataCondition(text, op, value) == Ok(Condition(Param(key, legacy), op, value))
  {
    hide CanonicalAndLegacyKey, Trim;
    CanonicalKeyStable(rawKey, "parameters");
    TrimKeepsLower(rawKey);
    FieldTextAppend("param.", Trim(rawKey));
    StripAfter("param.", Trim(rawKey));
    assert ("param." + Trim(rawKey))[0] == 'p';
  }

  lemma MetadataTarget(field: string, op: Operator, value: string)
    ensures var r := MetadataCondition(field, op, value);
            r.Ok? ==> r.value.target.Tag? || r.value.target.Param?
  {
    hide CanonicalAndLegacyKey, StripPrefix;
  }

  lemma {:induction false} MetadataRoundTrip(field: string, op: Operator, value: string)
    requires IsLower(field) && MetadataCondition(field, op, value).Ok?
    ensures var c := MetadataCondition(field, op, value).value;
            var text := FieldText(c.target);
            && c.op == op && c.value == value && IsFieldText(text) && ("tag." <= text || "param." <= text)
            && MetadataCondition(text, op, value) == Ok(c)
  {
    hide CanonicalAndLegacyKey, Trim;
    var tagKey := OrElse(StripPrefix(field, "tag."), StripPrefix(field, "tags."));
    var paramKey := OrElse(StripPrefix(field, "param."), StripPrefix(field, "params."));
    if tagKey.Some? {
      TagRoundTrip(op, value, tagKey.value);
    } else {
      ParamRoundTrip(op, value, paramKey.value);
    }
  }

  lemma LowerKeepsTrimmed(s: string)
    requires Trimmed(s)
    ensures Trim(Lower(s)) == Lower(s)
  {
    assert Trimmed(Lower(s));
    TrimFixpoint(Lower(s));
  }

  lemma PlainFieldText(target: Target)
    requires !target.Tag? && !target.Param?
    ensures IsFieldText(FieldText(target)) && PlainTarget(FieldText(target)) == Some(target)
  {
  }

  predicate HasMetadataPrefix(field: string) {
    "tag." <= field || "param." <= field
  }

  lemma MetadataFieldDispatch(normalize: Normalizer, field: string, op: Operator, value: string)
    requires IsFieldText(field) && HasMetadataPrefix(field) && value != [] && Trimmed(value)
    ensures BuildCondition(normalize, field, OperatorText(op), value) == MetadataCondition(field, op, value)
  {
    hide MetadataCondition, Trim, Lower;
    FieldTextFixpoint(field);
    TrimFixpoint(value);
    assert field[3] == '.' || (field[4] == 'm' && field[5] == '.');
  }

  lemma {:induction false} PlainRoundTrip(normalize: Normalizer, c: Condition, fieldRaw: string, opRaw: string, valueRaw: string)
    requires StableNormalizer(normalize) && BuildCondition(normalize, fieldRaw, opRaw, valueRaw) == Ok(c)
    requires !c.target.Tag? && !c.target.Param?
    ensures BuildCondition(normalize, FieldText(c.target), OperatorText(c.op), c.value) == Ok(c)
  {
    hide MetadataCondition, Trim, Lower, IsFieldText, PlainTarget, FieldText, ParseOperator;
    var field, value := Lower(Trim(fieldRaw)), Trim(valueRaw);
    MetadataTarget(field, ParseOperator(opRaw).value, value);
    PlainFieldText(c.target);
    FieldTextFixpoint(FieldText(c.target));
    TrimFixpoint(value);
    LowerKeepsTrimmed(value);
    LowerIdempotent(value);
    if c.target.CreatedAt? {
      TrimFixpoint(c.value);
    }
  }

  lemma {:induction false} TaggedRoundTrip(normalize: Normalizer, c: Condition, fieldRaw: string, opRaw: string, valueRaw: string)
    requires BuildCondition(normalize, fieldRaw, opRaw, valueRaw) == Ok(c)
    requires c.target.Tag? || c.target.Param?
    ensures BuildCondition(normalize, FieldText(c.target), OperatorText(c.op), c.value) == Ok(c)
    ensures IsFieldText(FieldText(c.target))
  {
    hide MetadataCondition, Trim, Lower, IsFieldText, PlainTarget, FieldText, ParseOperator;
    var field, value := Lower(Trim(fieldRaw)), Trim(valueRaw);
    assert IsLower(field) by { LowerIdempotent(Trim(fieldRaw)); }
    MetadataRoundTrip(field, ParseOperator(opRaw).value, value);
    MetadataFieldDispatch(normalize, FieldText(c.target), c.op, value);
  }

  /** Every condition the builder can produce is rebuilt from its printed field, operator and value,
      and the printed field is a word of the language. */
  lemma {:induction false} ConditionRoundTrip(normalize: Normalizer, c: Condition)
    requires StableNormalizer(normalize) && Buildable(normalize, c)
    ensures BuildCondition(normalize, FieldText(c.target), OperatorText(c.op), c.value) == Ok(c)
    ensures IsFieldText(FieldText(c.target)) && FieldText(c.target) !in {"and", "or"}
  {
    hide BuildCondition;
    var fieldRaw, opRaw, valueRaw :| BuildCondition(normalize, fieldRaw, opRaw, valueRaw) == Ok(c);
    if c.target.Tag? || c.target.Param? {
      TaggedRoundTrip(normalize, c, fieldRaw, opRaw, valueRaw);
    } else {
      PlainRoundTrip(normalize, c, fieldRaw, opRaw, valueRaw);
      PlainFieldText(c.target);
    }
  }

  // ------------------------------------------------------------------ what a written comparison denotes

  /** The operators and how they are written. */
  const OPERATORS: map<string, Operator> :=
    map["=" := Eq, "!=" := NotEq, ">" := Gt, ">=" := Gte, "<" := Lt, "<=" := Lte, "~" := Contains]

  /** The plain fields and both spellings of each. */
  const FIELDS: map<string, Target> :=
    map["project" := Project, "project_id" := Project, "owner" := Owner, "owner_user_id" := Owner, "status" := Status,
        "name" := Name, "id" := RunId, "run_id" := RunId, "created_at" := CreatedAt]

  /** `written` is a metadata key; without a dot, it is also looked up as it stands. */
  predicate IsMetadataKey(written: string, namespace: string, key: string, legacyKey: Option<string>) {
    CanonicalizeKey(written, namespace) == Ok(key) && legacyKey == if Lacks(Trim(written), '.') then Some(Trim(written)) else None
  }

  predicate Prefixed(field: string, prefix: string, written: string) {
    field == prefix + written
  }

  /** The key written after one of two prefixes. */
  ghost predicate Written(field: string, short: string, long: string, written: string) {
    Prefixed(field, short, written) || Prefixed(field, long, written)
  }

  /** The field is a written name of the target. */
  ghost predicate FieldDenotes(field: string, target: Target) {
    match target
    case Tag(key, legacyKey) =>
      exists written :: Written(field, "tag.", "tags.", written) && IsMetadataKey(written, "tags", key, legacyKey)
    case Param(key, legacyKey) =>
      exists written :: Written(field, "param.", "params.", written) && IsMetadataKey(written, "parameters", key, legacyKey)
    case _ => field in FIELDS && FIELDS[field] == target
  }

  /** The comparison `field op value`, as it is written, is the condition. */
  ghost predicate Denotes(normalize: Normalizer, fieldRaw: string, opRaw: string, valueRaw: string, c: Condition) {
    && opRaw in OPERATORS && OPERATORS[opRaw] == c.op && !AllWhitespace(valueRaw)
    && FieldDenotes(Lower(Trim(fieldRaw)), c.target) && ValueDenotes(normalize, c.target, c.op, Trim(valueRaw), c.value)
  }

  /** A timestamp is compared as normalized, a status in lowercase, every other field with the value as it
      is written; only timestamps have an order, and only the others are searched. */
  predicate ValueDenotes(normalize: Normalizer, target: Target, op: Operator, written: string, value: string) {
    match target
    case CreatedAt => op in {Eq, NotEq, Gt, Gte, Lt, Lte} && normalize(written) == Some(value)
    case Status => op in {Eq, NotEq, Contains} && value == Lower(written)
    case _ => op in {Eq, NotEq, Contains} && value == written
  }

  lemma OperatorDecides(raw: string)
    ensures ParseOperator(raw) == if raw in OPERATORS then Ok(OPERATORS[raw]) else Err(UnsupportedOperator)
  {
  }

  lemma FieldDecides(field: string)
    ensures PlainTarget(field) == if field in FIELDS then Some(FIELDS[field]) else None
  {
  }

  lemma StripIff(field: string, prefix: string, written: string)
    ensures StripPrefix(field, prefix) == Some(written) <==> Prefixed(field, prefix, written)
  {
    if Prefixed(field, prefix, written) { StripAfter(prefix, written); }
  }

  lemma LegacyStands(rawKey: string, namespace: string, key: string, legacyKey: Option<string>)
    ensures CanonicalAndLegacyKey(rawKey, namespace) == Ok((key, legacyKey)) <==> IsMetadataKey(rawKey, namespace, key, legacyKey)
  {
    hide CanonicalizeKey, Trim;
    assert '.' in Trim(rawKey) <==> !Lacks(Trim(rawKey), '.');
  }

  /** A text has at most one of the four prefixes. */
  lemma OnePrefix(field: string, a: string, b: string, x: string, y: string)
    requires a in {"tag.", "tags.", "param.", "params."} && b in {"tag.", "tags.", "param.", "params."}
    requires Prefixed(field, a, x) && Prefixed(field, b, y)
    ensures a == b && x == y
  {
    assert field[0] == a[0] == b[0] && field[|a| - 1] == '.' && field[|b| - 1] == '.';
    assert field[|a|..] == x && field[|b|..] == y;
  }

  lemma TagWritten(field: string, written: string)
    ensures OrElse(StripPrefix(field, "tag."), StripPrefix(field, "tags.")) == Some(written) <==> Written(field, "tag.", "tags.", written)
  {
    StripIff(field, "tag.", written);
    StripIff(field, "tags.", written);
    hide StripPrefix, Prefixed;
    if StripPrefix(field, "tag.").Some? {
      var x := StripPrefix(field, "tag.").value;
      StripIff(field, "tag.", x);
      if Prefixed(field, "tags.", written) { OnePrefix(field, "tag.", "tags.", x, written); }
    }
  }

  lemma ParamWritten(field: string, written: string)
    ensures OrElse(StripPrefix(field, "param."), StripPrefix(field, "params.")) == Some(written) <==> Written(field, "param.", "params.", written)
  {
    StripIff(field, "param.", written);
    StripIff(field, "params.", written);
    hide StripPrefix, Prefixed;
    if StripPrefix(field, "param.").Some? {
      var x := StripPrefix(field, "param.").value;
      StripIff(field, "param.", x);
      if Prefixed(field, "params.", written) { OnePrefix(field, "param.", "params.", x, written); }
    }
  }

  lemma TagOrParam(field: string, x: string, y: string)
    ensures !(Written(field, "tag.", "tags.", x) && Written(field, "param.", "params.", y))
  {
    hide Prefixed;
    if Written(field, "tag.", "tags.", x) && Written(field, "param.", "params.", y) {
      var a := if Prefixed(field, "tag.", x) then "tag." else "tags.";
      var b := if Prefixed(field, "param.", y) then "param." else "params.";
      OnePrefix(field, a, b, x, y);
    }
  }

  lemma TagDecides(field: string, key: string, legacyKey: Option<string>)
    ensures var tagKey := OrElse(StripPrefix(field, "tag."), StripPrefix(field, "tags."));
            FieldDenotes(field, Tag(key, legacyKey)) <==>
            tagKey.Some? && CanonicalAndLegacyKey(tagKey.value, "tags") == Ok((key, legacyKey))
  {
    forall written
      ensures OrElse(StripPrefix(field, "tag."), StripPrefix(field, "tags.")) == Some(written) <==> Written(field, "tag.", "tags.", written)
      ensures CanonicalAndLegacyKey(written, "tags") == Ok((key, legacyKey)) <==> IsMetadataKey(written, "tags", key, legacyKey)
    {
      TagWritten(field, written);
      LegacyStands(written, "tags", key, legacyKey);
    }
    hide StripPrefix, Written, CanonicalAndLegacyKey, IsMetadataKey, OrElse;
  }

  lemma ParamDecides(field: string, key: string, legacyKey: Option<string>)
    ensures var paramKey := OrElse(StripPrefix(field, "param."), StripPrefix(field, "params."));
            FieldDenotes(field, Param(key, legacyKey)) <==>
            paramKey.Some? && CanonicalAndLegacyKey(paramKey.value, "parameters") == Ok((key, legacyKey))
  {
    forall written
      ensures OrElse(StripPrefix(field, "param."), StripPrefix(field, "params.")) == Some(written) <==> Written(field, "param.", "params.", written)
      ensures CanonicalAndLegacyKey(written, "parameters") == Ok((key, legacyKey)) <==> IsMetadataKey(written, "parameters", key, legacyKey)
    {
      ParamWritten(field, written);
      LegacyStands(written, "parameters", key, legacyKey);
    }
    hide StripPrefix, Written, CanonicalAndLegacyKey, IsMetadataKey, OrElse;
  }

  lemma PrefixesExclude(field: string)
    ensures OrElse(StripPrefix(field, "tag."), StripPrefix(field, "tags.")).None?
         || OrElse(StripPrefix(field, "param."), StripPrefix(field, "params.")).None?
  {
    var tagKey := OrElse(StripPrefix(field, "tag."), StripPrefix(field, "tags."));
    var paramKey := OrElse(StripPrefix(field, "param."), StripPrefix(field, "params."));
    hide StripPrefix, Written, OrElse;
    if tagKey.Some? && paramKey.Some? {
      TagWritten(field, tagKey.value);
      ParamWritten(field, paramKey.value);
      TagOrParam(field, tagKey.value, paramKey.value);
    }
  }

  lemma TagConditionDecides(field: string, op: Operator, value: string, c: Condition)
    requires OrElse(StripPrefix(field, "tag."), StripPrefix(field, "tags.")).Some?
    ensures MetadataCondition(field, op, value) == Ok(c) <==>
            c.op == op && c.value == value && IsTextOperator(op) && c.target.Tag? && FieldDenotes(field, c.target)
  {
    if c.target.Tag? { TagDecides(field, c.target.key, c.target.legacyKey); }
    hide StripPrefix, CanonicalAndLegacyKey, OrElse, FieldDenotes, IsTextOperator;
  }

  lemma ParamConditionDecides(field: string, op: Operator, value: string, c: Condition)
    requires OrElse(StripPrefix(field, "tag."), StripPrefix(field, "tags.")).None?
    ensures MetadataCondition(field, op, value) == Ok(c) <==>
            c.op == op && c.value == value && IsTextOperator(op) && c.target.Param? && FieldDenotes(field, c.target)
  {
    if c.target.Param? { ParamDecides(field, c.target.key, c.target.legacyKey); }
    hide StripPrefix, CanonicalAndLegacyKey, OrElse, FieldDenotes, IsTextOperator;
  }

  lemma MetadataDecides(field: string, op: Operator, value: string, c: Condition)
    ensures MetadataCondition(field, op, value) == Ok(c) <==>
            && c.op == op && c.value == value && IsTextOperator(op)
            && (c.target.Tag? || c.target.Param?) && FieldDenotes(field, c.target)
  {
    PrefixesExclude(field);
    if c.target.Tag? { TagDecides(field, c.target.key, c.target.legacyKey); }
    if c.target.Param? { ParamDecides(field, c.target.key, c.target.legacyKey); }
    hide StripPrefix, CanonicalAndLegacyKey, OrElse, FieldDenotes, IsTextOperator, MetadataCondition;
    if OrElse(StripPrefix(field, "tag."), StripPrefix(field, "tags.")).Some? {
      TagConditionDecides(field, op, value, c);
    } else {
      ParamConditionDecides(field, op, value, c);
    }
  }

  lemma PlainDenotes(field: string, target: Target)
    ensures PlainTarget(field) == Some(target) <==> !target.Tag? && !target.Param? && FieldDenotes(field, target)
  {
  }

  /** No plain field reads as a metadata field. */
  lemma PlainHasNoPrefix(field: string, written: string)
    requires field in FIELDS
    ensures !Written(field, "tag.", "tags.", written) && !Written(field, "param.", "params.", written)
  {
    assert Lacks(field, '.');
    PrefixHasDot(field, "tag.", written);
    PrefixHasDot(field, "tags.", written);
    PrefixHasDot(field, "param.", written);
    PrefixHasDot(field, "params.", written);
    hide Lacks, Prefixed;
  }

  lemma PrefixHasDot(field: string, prefix: string, written: string)
    requires prefix != "" && prefix[|prefix| - 1] == '.'
    ensures Prefixed(field, prefix, written) ==> !Lacks(field, '.')
  {
    assert Prefixed(field, prefix, written) ==> field[|prefix| - 1] == '.';
  }

  lemma PlainNotMetadata(field: string, target: Target)
    requires field in FIELDS && FieldDenotes(field, target)
    ensures target == FIELDS[field]
  {
    forall written ensures !Written(field, "tag.", "tags.", written) && !Written(field, "param.", "params.", written) {
      PlainHasNoPrefix(field, written);
    }
    hide Written;
  }

  lemma TextOperators(op: Operator)
    ensures IsTextOperator(op) <==> op in {Eq, NotEq, Contains}
  {
  }

  lemma PlainConditionDecides(normalize: Normalizer, target: Target, op: Operator, value: string, c: Condition)
    requires !target.Tag? && !target.Param?
    ensures PlainCondition(normalize, target, op, value) == Ok(c) <==>
            c.op == op && c.target == target && ValueDenotes(normalize, target, op, value, c.value)
  {
    hide Lower;
  }

  /** Which comparisons are accepted, and as what. */
  lemma BuildDecides(normalize: Normalizer, fieldRaw: string, opRaw: string, valueRaw: string, c: Condition)
    ensures BuildCondition(normalize, fieldRaw, opRaw, valueRaw) == Ok(c) <==> Denotes(normalize, fieldRaw, opRaw, valueRaw, c)
  {
    var field, value := Lower(Trim(fieldRaw)), Trim(valueRaw);
    OperatorDecides(opRaw);
    TrimmedAway(valueRaw);
    FieldDecides(field);
    PlainDenotes(field, c.target);
    if opRaw in OPERATORS {
      TextOperators(OPERATORS[opRaw]);
      if field in FIELDS {
        if FieldDenotes(field, c.target) { PlainNotMetadata(field, c.target); }
        PlainConditionDecides(normalize, FIELDS[field], OPERATORS[opRaw], value, c);
      } else {
        MetadataDecides(field, OPERATORS[opRaw], value, c);
      }
    }
    hide ParseOperator, PlainTarget, PlainCondition, MetadataCondition, FieldDenotes, Trim, Lower, AllWhitespace, IsTextOperator;
  }

  /** The field is written with the prefix of a metadata key. */
  ghost predicate HasKey(field: string) {
    exists written :: Written(field, "tag.", "tags.", written) || Written(field, "param.", "params.", written)
  }

  lemma HasKeyIff(field: string)
    ensures HasKey(field) <==>
            OrElse(StripPrefix(field, "tag."), StripPrefix(field, "tags.")).Some? || OrElse(StripPrefix(field, "param."), StripPrefix(field, "params.")).Some?
  {
    forall written
      ensures OrElse(StripPrefix(field, "tag."), StripPrefix(field, "tags.")) == Some(written) <==> Written(field, "tag.", "tags.", written)
      ensures OrElse(StripPrefix(field, "param."), StripPrefix(field, "params.")) == Some(written) <==> Written(field, "param.", "params.", written)
    {
      TagWritten(field, written);
      ParamWritten(field, written);
    }
    hide StripPrefix, OrElse, Written;
  }

  lemma MetadataRefused(field: string, op: Operator, value: string)
    requires MetadataCondition(field, op, value).Err?
    ensures var e := MetadataCondition(field, op, value).error;
            if !HasKey(field) then e == UnsupportedField else if !IsTextOperator(op) then e == OperatorNotAllowed else e.InvalidKey?
  {
    HasKeyIff(field);
    hide StripPrefix, OrElse, CanonicalAndLegacyKey, HasKey, IsTextOperator;
  }

  lemma PlainRefused(normalize: Normalizer, target: Target, op: Operator, value: string)
    requires PlainCondition(normalize, target, op, value).Err?
    ensures PlainCondition(normalize, target, op, value).error
         == if target.CreatedAt? && !op.Contains? then InvalidTimestamp else OperatorNotAllowed
  {
  }

  lemma WrittenOperators(opRaw: string)
    requires opRaw in OPERATORS
    ensures OPERATORS[opRaw].Contains? <==> opRaw == "~"
    ensures IsTextOperator(OPERATORS[opRaw]) <==> opRaw in {"=", "!=", "~"}
  {
  }

  lemma CreatedAtField(field: string)
    requires field in FIELDS
    ensures FIELDS[field] == CreatedAt <==> field == "created_at"
  {
  }

  /** Why a comparison is refused, in the order of the checks. */
  lemma BuildRefused(normalize: Normalizer, fieldRaw: string, opRaw: string, valueRaw: string)
    requires BuildCondition(normalize, fieldRaw, opRaw, valueRaw).Err?
    ensures var e, field := BuildCondition(normalize, fieldRaw, opRaw, valueRaw).error, Lower(Trim(fieldRaw));
            if opRaw !in OPERATORS then e == UnsupportedOperator
            else if AllWhitespace(valueRaw) then e == EmptyValue
            else if field in FIELDS then e == (if field == "created_at" && opRaw != "~" then InvalidTimestamp else OperatorNotAllowed)
            else if !HasKey(field) then e == UnsupportedField
            else if opRaw !in {"=", "!=", "~"} then e == OperatorNotAllowed
            else e.InvalidKey?
  {
    var field, value := Lower(Trim(fieldRaw)), Trim(valueRaw);
    OperatorDecides(opRaw);
    TrimmedAway(valueRaw);
    FieldDecides(field);
    hide ParseOperator, PlainTarget, PlainCondition, MetadataCondition, Trim, Lower, AllWhitespace, IsTextOperator, HasKey, OPERATORS, FIELDS;
    if opRaw in OPERATORS && value != [] {
      WrittenOperators(opRaw);
      if field in FIELDS {
        CreatedAtField(field);
        PlainRefused(normalize, FIELDS[field], OPERATORS[opRaw], value);
      } else {
        MetadataRefused(field, OPERATORS[opRaw], value);
      }
    }
  }
}
