/** Metadata keys of params, tags and filters: `canonicalize_metadata_key`. */
module MetadataKeys {
  import opened Wrappers
  import opened Text

  const NAMESPACES: set<string> := {"parameters", "tags", "system", "dataset", "model"}
  const MAX_KEY_LEN := 256
  const MAX_DEPTH := 4
  const MAX_SEGMENT_LEN := 64

  datatype KeyError =
    | EmptyKey
    | KeyTooLong
    | KeyTooDeep
    | UnsupportedNamespace
    | EmptySegment
    | SegmentTooLong
    | InvalidCharacter

  function Split(s: string, sep: char): (parts: seq<string>)
    ensures parts != []
    decreases |s|
  {
    if s == [] then [[]]
    else
      var rest := Split(s[1..], sep);
      if s[0] == sep then [[]] + rest else [[s[0]] + rest[0]] + rest[1..]
  }

  predicate IsKeyChar(c: char) {
    'a' <= c <= 'z' || 'A' <= c <= 'Z' || '0' <= c <= '9' || c == '_' || c == '-'
  }

  function SegmentError(segments: seq<string>): Option<KeyError> {
    if segments == [] then None
    else if segments[0] == [] then Some(EmptySegment)
    else if Utf8Len(segments[0]) > MAX_SEGMENT_LEN then Some(SegmentTooLong)
    else if exists i :: 0 <= i < |segments[0]| && !IsKeyChar(segments[0][i]) then Some(InvalidCharacter)
    else SegmentError(segments[1..])
  }

  function CanonicalizeTrimmed(trimmed: string, defaultNamespace: string): Result<string, KeyError> {
    if trimmed == [] then Err(EmptyKey)
    else
      var canonical := if '.' in trimmed then trimmed else defaultNamespace + "." + trimmed;
      var segments := Split(canonical, '.');
      if Utf8Len(canonical) > MAX_KEY_LEN then Err(KeyTooLong)
      else if |segments| > MAX_DEPTH then Err(KeyTooDeep)
      else if segments[0] !in NAMESPACES then Err(UnsupportedNamespace)
      else
        match SegmentError(segments)
        case Some(e) => Err(e)
        case None => Ok(canonical)
  }

  function CanonicalizeKey(rawKey: string, defaultNamespace: string): Result<string, KeyError> {
    CanonicalizeTrimmed(Trim(rawKey), defaultNamespace)
  }

  function CanonicalAndLegacyKey(rawKey: string, defaultNamespace: string): Result<(string, Option<string>), KeyError> {
    match CanonicalizeKey(rawKey, defaultNamespace)
    case Err(e) => Err(e)
    case Ok(canonical) =>
      var trimmed := Trim(rawKey);
      Ok((canonical, if '.' in trimmed then None else Some(trimmed)))
  }

  // ------------------------------------------------------------------ which keys are accepted

  /** The segments with a separator between them. */
  function Join(segments: seq<string>, sep: char): string {
    if segments == [] then []
    else if |segments| == 1 then segments[0]
    else segments[0] + [sep] + Join(segments[1..], sep)
  }

  predicate Lacks(s: string, sep: char) {
    forall i :: 0 <= i < |s| ==> s[i] != sep
  }

  predicate AllLack(segments: seq<string>, sep: char) {
    forall k :: 0 <= k < |segments| ==> Lacks(segments[k], sep)
  }

  lemma JoinPrepend(c: char, segments: seq<string>, sep: char)
    requires segments != []
    ensures Join([[c] + segments[0]] + segments[1..], sep) == [c] + Join(segments, sep)
    ensures Join([[]] + segments, sep) == [sep] + Join(segments, sep)
  {
    var longer := [[c] + segments[0]] + segments[1..];
    assert longer[1..] == segments[1..] && ([[]] + segments)[1..] == segments;
    if |segments| > 1 {
      assert [c] + segments[0] + [sep] + Join(segments[1..], sep) == [c] + (segments[0] + [sep] + Join(segments[1..], sep));
    }
    assert [] + [sep] + Join(segments, sep) == [sep] + Join(segments, sep);
  }

  /** Splitting gives segments without separators that join to the text. */
  lemma {:induction false} SplitJoins(s: string, sep: char)
    ensures Join(Split(s, sep), sep) == s && AllLack(Split(s, sep), sep)
    decreases |s|
  {
    if s != [] {
      SplitJoins(s[1..], sep);
      var rest := Split(s[1..], sep);
      JoinPrepend(s[0], rest, sep);
      assert s == [s[0]] + s[1..];
    }
  }

  /** Only one list of segments does. */
  lemma {:induction false} SplitUnique(segments: seq<string>, sep: char)
    requires segments != [] && AllLack(segments, sep)
    ensures Split(Join(segments, sep), sep) == segments
    decreases |segments|, |segments[0]|
  {
    var s := Join(segments, sep);
    if segments[0] != [] {
      var shorter := [segments[0][1..]] + segments[1..];
      JoinPrepend(segments[0][0], shorter, sep);
      assert [segments[0][0]] + shorter[0] == segments[0] && shorter[1..] == segments[1..];
      assert [segments[0]] + segments[1..] == segments;
      assert AllLack(shorter, sep);
      SplitUnique(shorter, sep);
      assert s[0] == segments[0][0] && s[1..] == Join(shorter, sep);
    } else if |segments| == 1 {
      assert segments == [[]];
    } else {
      assert s == [sep] + Join(segments[1..], sep);
      SplitUnique(segments[1..], sep);
      assert s[1..] == Join(segments[1..], sep) && segments == [[]] + segments[1..];
    }
  }

  /** The full key: a key without a dot stands in the default namespace. */
  predicate IsFullKey(rawKey: string, defaultNamespace: string, key: string) {
    key == if Lacks(Trim(rawKey), '.') then defaultNamespace + "." + Trim(rawKey) else Trim(rawKey)
  }

  predicate IsSegment(segment: string) {
    0 < Utf8Len(segment) <= 64 && forall i :: 0 <= i < |segment| ==> IsKeyChar(segment[i])
  }

  /** At most four segments in at most 256 bytes, the first of them a known namespace. */
  ghost predicate IsKeyOf(segments: seq<string>, key: string) {
    && 1 <= |segments| <= 4 && Join(segments, '.') == key && Utf8Len(key) <= 256
    && segments[0] in {"parameters", "tags", "system", "dataset", "model"}
    && forall k :: 0 <= k < |segments| ==> IsSegment(segments[k])
  }

  ghost predicate IsCanonicalKey(key: string) {
    exists segments :: IsKeyOf(segments, key)
  }

  lemma {:induction false} SegmentsDecided(segments: seq<string>)
    ensures SegmentError(segments).None? <==> forall k :: 0 <= k < |segments| ==> IsSegment(segments[k])
    decreases |segments|
  {
    if segments != [] {
      SegmentsDecided(segments[1..]);
      SegmentDecided(segments);
      assert forall k :: 0 <= k < |segments| - 1 ==> segments[k + 1] == segments[1..][k];
      hide IsSegment, SegmentError;
      if forall k :: 0 <= k < |segments| - 1 ==> IsSegment(segments[1..][k]) {
        forall k | 0 < k < |segments| ensures IsSegment(segments[k]) { assert segments[k] == segments[1..][k - 1]; }
      }
    }
  }

  lemma SegmentDecided(segments: seq<string>)
    requires segments != []
    ensures SegmentError(segments).None? <==> IsSegment(segments[0]) && SegmentError(segments[1..]).None?
  {
    assert segments[0] == [] <==> Utf8Len(segments[0]) == 0;
  }

  lemma KeySegmentsLack(segments: seq<string>, key: string)
    requires IsKeyOf(segments, key)
    ensures AllLack(segments, '.')
  {
    hide Utf8Len;
    forall k | 0 <= k < |segments| ensures Lacks(segments[k], '.') { assert IsSegment(segments[k]); }
  }

  lemma SplitDecides(key: string)
    ensures IsCanonicalKey(key) <==>
            var segments := Split(key, '.');
            Utf8Len(key) <= MAX_KEY_LEN && |segments| <= MAX_DEPTH && segments[0] in NAMESPACES && SegmentError(segments).None?
  {
    SplitJoins(key, '.');
    SegmentsDecided(Split(key, '.'));
    hide Split, Join, Utf8Len, IsSegment, SegmentError;
    if segments :| IsKeyOf(segments, key) {
      KeySegmentsLack(segments, key);
      SplitUnique(segments, '.');
    }
    if Utf8Len(key) <= MAX_KEY_LEN && |Split(key, '.')| <= MAX_DEPTH && Split(key, '.')[0] in NAMESPACES && SegmentError(Split(key, '.')).None? {
      assert IsKeyOf(Split(key, '.'), key);
    }
  }

  /** A key is accepted exactly if it is not blank and its full key is one, and then as that. */
  lemma KeyAcceptedIff(rawKey: string, defaultNamespace: string, key: string)
    ensures CanonicalizeKey(rawKey, defaultNamespace) == Ok(key) <==>
            !AllWhitespace(rawKey) && IsFullKey(rawKey, defaultNamespace, key) && IsCanonicalKey(key)
  {
    TrimmedAway(rawKey);
    SplitDecides(key);
    hide Trim, Split, Utf8Len, SegmentError, IsCanonicalKey, AllWhitespace;
    assert '.' in Trim(rawKey) <==> !Lacks(Trim(rawKey), '.');
  }

  /** The segment at `k` is the first that is none, for this reason. */
  ghost predicate FirstBadSegment(segments: seq<string>, k: int, e: KeyError) {
    && 0 <= k < |segments| && (forall j :: 0 <= j < k ==> IsSegment(segments[j])) && !IsSegment(segments[k])
    && e == if segments[k] == [] then EmptySegment else if Utf8Len(segments[k]) > 64 then SegmentTooLong else InvalidCharacter
  }

  lemma {:induction false} SegmentRefused(segments: seq<string>)
    ensures SegmentError(segments).Some? ==> exists k :: FirstBadSegment(segments, k, SegmentError(segments).value)
    decreases |segments|
  {
    if SegmentError(segments).Some? {
      SegmentDecided(segments);
      var e := SegmentError(segments).value;
      if IsSegment(segments[0]) {
        SegmentRefused(segments[1..]);
        hide IsSegment, Utf8Len;
        var k :| FirstBadSegment(segments[1..], k, e);
        assert forall j :: 0 < j <= k + 1 ==> segments[j] == segments[1..][j - 1];
        assert FirstBadSegment(segments, k + 1, e);
      } else {
        assert FirstBadSegment(segments, 0, e);
      }
    }
  }

  /** The reason of a refusal, in the order of the checks: blank, too long, too deep, unknown namespace, and
      then the first bad segment. */
  lemma KeyRefused(rawKey: string, defaultNamespace: string, key: string)
    requires IsFullKey(rawKey, defaultNamespace, key) && CanonicalizeKey(rawKey, defaultNamespace).Err?
    ensures var e, segments := CanonicalizeKey(rawKey, defaultNamespace).error, Split(key, '.');
            && Join(segments, '.') == key && AllLack(segments, '.')
            && if AllWhitespace(rawKey) then e == EmptyKey
               else if Utf8Len(key) > 256 then e == KeyTooLong
               else if |segments| > 4 then e == KeyTooDeep
               else if segments[0] !in {"parameters", "tags", "system", "dataset", "model"} then e == UnsupportedNamespace
               else exists k :: FirstBadSegment(segments, k, e)
  {
    TrimmedAway(rawKey);
    SplitJoins(key, '.');
    SegmentRefused(Split(key, '.'));
    hide Trim, Split, Utf8Len, SegmentError, AllWhitespace, FirstBadSegment;
    assert '.' in Trim(rawKey) <==> !Lacks(Trim(rawKey), '.');
  }
}
