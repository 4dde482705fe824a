/** Cardinality guardrails: `CardinalityTracker`. */
module Limits {
  import opened Text
  import opened Select

  type Tag = (string, string)

  datatype Config = Config(
    maxTagKeysPerRun: nat,
    maxMetricNamesPerRun: nat,
    maxTagsPerProject: nat,
    maxTagKeyLength: nat,
    maxTagValueLength: nat,
    maxMetricNameLength: nat)

  datatype RunCardinality = RunCardinality(tagKeys: set<string>, metricNames: set<string>)

  /** The tracker's two tables. */
  datatype Tracker = Tracker(runs: map<string, RunCardinality>, projects: map<string, set<Tag>>)

  datatype Warning =
    | TagKeyTooLong(key: string)
    | TagValueTooLong(key: string)
    | RunTagKeysFull(limit: nat)
    | ProjectTagsFull(limit: nat)
    | MetricNameTooLong(name: string)
    | RunMetricNamesFull(limit: nat)

  // ------------------------------------------------------------------ tags

  /** The tag loop's state: the two sets it grows and the three lists it fills. */
  datatype TagScan = TagScan(
    keys: set<string>,
    pairs: set<Tag>,
    accepted: seq<Tag>,
    dropped: seq<Tag>,
    warnings: seq<Warning>)

  function TagLengthWarning(cfg: Config, tag: Tag): (w: seq<Warning>)
    ensures |w| <= 1
  {
    if Utf8Len(tag.0) > cfg.maxTagKeyLength then [TagKeyTooLong(tag.0)]
    else if Utf8Len(tag.1) > cfg.maxTagValueLength then [TagValueTooLong(tag.0)]
    else []
  }

  function DropTag(st: TagScan, tag: Tag, warnings: seq<Warning>): TagScan {
    st.(dropped := st.dropped + [tag], warnings := st.warnings + warnings)
  }

  function TagStep(cfg: Config, st: TagScan, tag: Tag): TagScan {
    var tooLong := TagLengthWarning(cfg, tag);
    if tooLong != [] then DropTag(st, tag, tooLong)
    else if tag.0 !in st.keys && |st.keys| >= cfg.maxTagKeysPerRun then
      DropTag(st, tag, if st.dropped == [] then [RunTagKeysFull(cfg.maxTagKeysPerRun)] else [])
    else if tag !in st.pairs && |st.pairs| >= cfg.maxTagsPerProject then
      DropTag(st, tag, if st.dropped == [] then [ProjectTagsFull(cfg.maxTagsPerProject)] else [])
    else
      st.(keys := st.keys + {tag.0}, pairs := st.pairs + {tag}, accepted := st.accepted + [tag])
  }

  function ScanTags(cfg: Config, st: TagScan, tags: seq<Tag>): TagScan
    decreases |tags|
  {
    if tags == [] then st else ScanTags(cfg, TagStep(cfg, st, tags[0]), tags[1..])
  }

  predicate TagCaps(cfg: Config, st: TagScan) {
    |st.keys| <= cfg.maxTagKeysPerRun && |st.pairs| <= cfg.maxTagsPerProject
  }

  /** The verdict on `tag`, read off the sets as they stand when the loop ends. */
  predicate TagAdmitted(cfg: Config, end: TagScan, tag: Tag) {
    TagLengthWarning(cfg, tag) == [] && tag.0 in end.keys && tag in end.pairs
  }

  lemma {:induction false} ScanTagsGrows(cfg: Config, st: TagScan, tags: seq<Tag>)
    ensures var end := ScanTags(cfg, st, tags);
            && st.keys <= end.keys && st.pairs <= end.pairs
            && (|st.keys| >= cfg.maxTagKeysPerRun ==> end.keys == st.keys)
            && (|st.pairs| >= cfg.maxTagsPerProject ==> end.pairs == st.pairs)
            && (TagCaps(cfg, st) ==> TagCaps(cfg, end))
    decreases |tags|
  {
    if tags != [] {
      var next := TagStep(cfg, st, tags[0]);
      ScanTagsGrows(cfg, next, tags[1..]);
      assert tags[0].0 in st.keys ==> st.keys + {tags[0].0} == st.keys;
      assert tags[0] in st.pairs ==> st.pairs + {tags[0]} == st.pairs;
    }
  }

  lemma TagVerdictFinal(cfg: Config, st: TagScan, tags: seq<Tag>)
    requires tags != []
    ensures var end, next := ScanTags(cfg, st, tags), TagStep(cfg, st, tags[0]);
            if TagAdmitted(cfg, end, tags[0])
            then next.accepted == st.accepted + [tags[0]] && next.dropped == st.dropped
            else next.accepted == st.accepted && next.dropped == st.dropped + [tags[0]]
  {
    ScanTagsGrows(cfg, st, tags);
    ScanTagsGrows(cfg, TagStep(cfg, st, tags[0]), tags[1..]);
  }

  /** The tag loop splits its input, in order, by a verdict that depends on the tag alone: equal tags
      share a verdict, although the loop decides them one occurrence at a time. */
  lemma {:induction false} ScanTagsPartitions(cfg: Config, st: TagScan, tags: seq<Tag>)
    ensures var end := ScanTags(cfg, st, tags);
            && end.accepted == st.accepted + Filter(tags, t => TagAdmitted(cfg, end, t))
            && end.dropped == st.dropped + Filter(tags, t => !TagAdmitted(cfg, end, t))
    decreases |tags|
  {
    if tags != [] {
      var next := TagStep(cfg, st, tags[0]);
      TagVerdictFinal(cfg, st, tags);
      hide TagStep, TagAdmitted;
      ScanTagsPartitions(cfg, next, tags[1..]);
    }
  }

  lemma {:induction false} ScanTagsWarns(cfg: Config, st: TagScan, tags: seq<Tag>)
    requires st.dropped != [] ==> st.warnings != []
    ensures var end := ScanTags(cfg, st, tags);
            && (end.dropped != [] ==> end.warnings != [])
            && st.warnings <= end.warnings
    decreases |tags|
  {
    if tags != [] {
      ScanTagsWarns(cfg, TagStep(cfg, st, tags[0]), tags[1..]);
    }
  }

  lemma {:induction false} ScanTagsIdempotent(cfg: Config, st: TagScan, tags: seq<Tag>)
    requires forall t :: t in tags ==> TagAdmitted(cfg, st, t)
    ensures ScanTags(cfg, st, tags) == st.(accepted := st.accepted + tags)
    decreases |tags|
  {
    if tags == [] {
      assert st.accepted + tags == st.accepted;
    } else {
      assert tags[0] in tags && TagAdmitted(cfg, st, tags[0]);
      var next := TagStep(cfg, st, tags[0]);
      assert next == st.(accepted := st.accepted + [tags[0]]) by {
        assert st.keys + {tags[0].0} == st.keys && st.pairs + {tags[0]} == st.pairs;
      }
      forall t | t in tags[1..] ensures TagAdmitted(cfg, next, t) {
        assert t in tags && TagAdmitted(cfg, st, t);
      }
      ScanTagsIdempotent(cfg, next, tags[1..]);
      assert st.accepted + [tags[0]] + tags[1..] == st.accepted + tags;
    }
  }

  // ------------------------------------------------------------------ metric names

  datatype NameScan = NameScan(
    names: set<string>,
    accepted: seq<string>,
    dropped: seq<string>,
    warnings: seq<Warning>)

  function NameStep(cfg: Config, st: NameScan, name: string): NameScan {
    if Utf8Len(name) > cfg.maxMetricNameLength then
      st.(dropped := st.dropped + [name], warnings := st.warnings + [MetricNameTooLong(name)])
    else if name !in st.names && |st.names| >= cfg.maxMetricNamesPerRun then
      var warning := if st.dropped == [] then [RunMetricNamesFull(cfg.maxMetricNamesPerRun)] else [];
      st.(dropped := st.dropped + [name], warnings := st.warnings + warning)
    else
      st.(names := st.names + {name}, accepted := st.accepted + [name])
  }

  function ScanNames(cfg: Config, st: NameScan, names: seq<string>): NameScan
    decreases |names|
  {
    if names == [] then st else ScanNames(cfg, NameStep(cfg, st, names[0]), names[1..])
  }

  predicate NameAdmitted(cfg: Config, end: NameScan, name: string) {
    Utf8Len(name) <= cfg.maxMetricNameLength && name in end.names
  }

  lemma {:induction false} ScanNamesGrows(cfg: Config, st: NameScan, names: seq<string>)
    ensures var end := ScanNames(cfg, st, names);
            && st.names <= end.names
            && (|st.names| >= cfg.maxMetricNamesPerRun ==> end.names == st.names)
            && (|st.names| <= cfg.maxMetricNamesPerRun ==> |end.names| <= cfg.maxMetricNamesPerRun)
    decreases |names|
  {
    if names != [] {
      ScanNamesGrows(cfg, NameStep(cfg, st, names[0]), names[1..]);
      assert names[0] in st.names ==> st.names + {names[0]} == st.names;
    }
  }

  lemma NameVerdictFinal(cfg: Config, st: NameScan, names: seq<string>)
    requires names != []
    ensures var end, next := ScanNames(cfg, st, names), NameStep(cfg, st, names[0]);
            if NameAdmitted(cfg, end, names[0])
            then next.accepted == st.accepted + [names[0]] && next.dropped == st.dropped
            else next.accepted == st.accepted && next.dropped == st.dropped + [names[0]]
  {
    ScanNamesGrows(cfg, st, names);
    ScanNamesGrows(cfg, NameStep(cfg, st, names[0]), names[1..]);
  }

  lemma {:induction false} ScanNamesPartitions(cfg: Config, st: NameScan, names: seq<string>)
    ensures var end := ScanNames(cfg, st, names);
            && end.accepted == st.accepted + Filter(names, n => NameAdmitted(cfg, end, n))
            && end.dropped == st.dropped + Filter(names, n => !NameAdmitted(cfg, end, n))
    decreases |names|
  {
    if names != [] {
      var next := NameStep(cfg, st, names[0]);
      NameVerdictFinal(cfg, st, names);
      hide NameStep, NameAdmitted;
      ScanNamesPartitions(cfg, next, names[1..]);
    }
  }

  lemma {:induction false} ScanNamesWarns(cfg: Config, st: NameScan, names: seq<string>)
    requires st.dropped != [] ==> st.warnings != []
    ensures var end := ScanNames(cfg, st, names);
            && (end.dropped != [] ==> end.warnings != [])
            && st.warnings <= end.warnings
    decreases |names|
  {
    if names != [] {
      ScanNamesWarns(cfg, NameStep(cfg, st, names[0]), names[1..]);
    }
  }

  lemma {:induction false} ScanNamesIdempotent(cfg: Config, st: NameScan, names: seq<string>)
    requires forall n :: n in names ==> NameAdmitted(cfg, st, n)
    ensures ScanNames(cfg, st, names) == st.(accepted := st.accepted + names)
    decreases |names|
  {
    if names == [] {
      assert st.accepted + names == st.accepted;
    } else {
      assert names[0] in names && NameAdmitted(cfg, st, names[0]);
      var next := NameStep(cfg, st, names[0]);
      assert st.names + {names[0]} == st.names;
      forall n | n in names[1..] ensures NameAdmitted(cfg, next, n) {
        assert n in names && NameAdmitted(cfg, st, n);
      }
      ScanNamesIdempotent(cfg, next, names[1..]);
      assert st.accepted + [names[0]] + names[1..] == st.accepted + names;
    }
  }

  // ------------------------------------------------------------------ one batch

  datatype Validation = Validation(
    acceptedTags: seq<Tag>,
    acceptedMetrics: seq<string>,
    droppedTags: seq<Tag>,
    droppedMetrics: seq<string>,
    warnings: seq<Warning>)

  function RunOf(t: Tracker, run: string): RunCardinality {
    if run in t.runs then t.runs[run] else RunCardinality({}, {})
  }

  function PairsOf(t: Tracker, project: string): set<Tag> {
    if project in t.projects then t.projects[project] else {}
  }

  function BatchTags(cfg: Config, t: Tracker, project: string, run: string, tags: seq<Tag>): TagScan {
    ScanTags(cfg, TagScan(RunOf(t, run).tagKeys, PairsOf(t, project), [], [], []), tags)
  }

  /** The metric loop starts with the warnings the tag loop left. */
  function BatchNames(cfg: Config, t: Tracker, run: string, names: seq<string>, warnings: seq<Warning>): NameScan {
    ScanNames(cfg, NameScan(RunOf(t, run).metricNames, [], [], warnings), names)
  }

  function Validated(cfg: Config, t: Tracker, project: string, run: string, tags: seq<Tag>, names: seq<string>)
    : (Tracker, Validation)
  {
    var tagEnd := BatchTags(cfg, t, project, run, tags);
    var nameEnd := BatchNames(cfg, t, run, names, tagEnd.warnings);
    (Tracker(t.runs[run := RunCardinality(tagEnd.keys, nameEnd.names)], t.projects[project := tagEnd.pairs]),
     Validation(tagEnd.accepted, nameEnd.accepted, tagEnd.dropped, nameEnd.dropped, nameEnd.warnings))
  }

  ghost predicate Caps(cfg: Config, t: Tracker) {
    && (forall run :: run in t.runs ==>
          |t.runs[run].tagKeys| <= cfg.maxTagKeysPerRun && |t.runs[run].metricNames| <= cfg.maxMetricNamesPerRun)
    && (forall project :: project in t.projects ==> |t.projects[project]| <= cfg.maxTagsPerProject)
  }

  lemma ValidateKeepsCaps(cfg: Config, t: Tracker, project: string, run: string, tags: seq<Tag>, names: seq<string>)
    requires Caps(cfg, t)
    ensures Caps(cfg, Validated(cfg, t, project, run, tags, names).0)
  {
    var tagStart := TagScan(RunOf(t, run).tagKeys, PairsOf(t, project), [], [], []);
    ScanTagsGrows(cfg, tagStart, tags);
    var tagEnd := ScanTags(cfg, tagStart, tags);
    ScanNamesGrows(cfg, NameScan(RunOf(t, run).metricNames, [], [], tagEnd.warnings), names);
  }

  /** Accepted and dropped items split the batch in order, equal items share a verdict, and every drop
      comes with a warning. */
  lemma ValidatePartitions(cfg: Config, t: Tracker, project: string, run: string, tags: seq<Tag>, names: seq<string>)
    ensures var tagEnd := BatchTags(cfg, t, project, run, tags);
            var nameEnd := BatchNames(cfg, t, run, names, tagEnd.warnings);
            var v := Validated(cfg, t, project, run, tags, names).1;
            && v.acceptedTags == Filter(tags, x => TagAdmitted(cfg, tagEnd, x))
            && v.droppedTags == Filter(tags, x => !TagAdmitted(cfg, tagEnd, x))
            && v.acceptedMetrics == Filter(names, n => NameAdmitted(cfg, nameEnd, n))
            && v.droppedMetrics == Filter(names, n => !NameAdmitted(cfg, nameEnd, n))
            && (v.droppedTags != [] || v.droppedMetrics != [] ==> v.warnings != [])
  {
    var tagStart := TagScan(RunOf(t, run).tagKeys, PairsOf(t, project), [], [], []);
    var tagEnd := ScanTags(cfg, tagStart, tags);
    ScanTagsPartitions(cfg, tagStart, tags);
    ScanTagsWarns(cfg, tagStart, tags);
    var nameStart := NameScan(RunOf(t, run).metricNames, [], [], tagEnd.warnings);
    ScanNamesPartitions(cfg, nameStart, names);
    ScanNamesWarns(cfg, nameStart, names);
  }

  /** Submitting what was accepted once more accepts all of it, warns of nothing and changes nothing. */
  lemma RevalidateAccepted(cfg: Config, t: Tracker, project: string, run: string, tags: seq<Tag>, names: seq<string>)
    ensures var (after, v) := Validated(cfg, t, project, run, tags, names);
            Validated(cfg, after, project, run, v.acceptedTags, v.acceptedMetrics) ==
            (after, Validation(v.acceptedTags, v.acceptedMetrics, [], [], []))
  {
    hide ScanTags, ScanNames, TagLengthWarning, Utf8Len;
    var (after, v) := Validated(cfg, t, project, run, tags, names);
    ValidatePartitions(cfg, t, project, run, tags, names);
    var tagStart := TagScan(RunOf(after, run).tagKeys, PairsOf(after, project), [], [], []);
    var tagEnd := BatchTags(cfg, t, project, run, tags);
    var nameEnd := BatchNames(cfg, t, run, names, tagEnd.warnings);
    forall x | x in v.acceptedTags ensures TagAdmitted(cfg, tagStart, x) {
      FilterMember(tags, y => TagAdmitted(cfg, tagEnd, y), x);
    }
    forall n | n in v.acceptedMetrics ensures NameAdmitted(cfg, NameScan(RunOf(after, run).metricNames, [], [], []), n) {
      FilterMember(names, y => NameAdmitted(cfg, nameEnd, y), n);
    }
    ScanTagsIdempotent(cfg, tagStart, v.acceptedTags);
    ScanNamesIdempotent(cfg, NameScan(RunOf(after, run).metricNames, [], [], []), v.acceptedMetrics);
    assert after.runs[run := RunOf(after, run)] == after.runs;
    assert after.projects[project := PairsOf(after, project)] == after.projects;
    assert [] + v.acceptedTags == v.acceptedTags && [] + v.acceptedMetrics == v.acceptedMetrics;
  }

  // ------------------------------------------------------------------ the verdicts, on the input

  /** The items of a prefix that are accepted in the end. */
  function AcceptedIn<T>(prefix: seq<T>, accepted: seq<T>): set<T> {
    set x | x in prefix && x in accepted
  }

  function KeysIn(tags: set<Tag>): set<string> {
    set t | t in tags :: t.0
  }

  /** Each name is accepted exactly if it is short enough and is in use already, by the run or earlier in the
      batch, or finds fewer names in use than the limit; in use at the end is what was and what was accepted. */
  ghost predicate NamesDecided(cfg: Config, start: set<string>, names: seq<string>, accepted: seq<string>, after: set<string>) {
    && after == start + AcceptedIn(names, accepted)
    && forall i :: 0 <= i < |names| ==>
         var before := start + AcceptedIn(names[..i], accepted);
         names[i] in accepted <==>
           Utf8Len(names[i]) <= cfg.maxMetricNameLength && (names[i] in before || |before| < cfg.maxMetricNamesPerRun)
  }

  /** The tag is short enough, its key in use by the run or one under its limit, and the pair in use in the
      project or one under its limit. */
  predicate TagFits(cfg: Config, tag: Tag, keys: set<string>, pairs: set<Tag>) {
    && Utf8Len(tag.0) <= cfg.maxTagKeyLength && Utf8Len(tag.1) <= cfg.maxTagValueLength
    && (tag.0 in keys || |keys| < cfg.maxTagKeysPerRun)
    && (tag in pairs || |pairs| < cfg.maxTagsPerProject)
  }

  /** The same of tags, for the keys of the run and the pairs of the project. */
  ghost predicate TagsDecided(
    cfg: Config, keys: set<string>, pairs: set<Tag>, tags: seq<Tag>, accepted: seq<Tag>, keysAfter: set<string>, pairsAfter: set<Tag>)
  {
    && keysAfter == keys + KeysIn(AcceptedIn(tags, accepted)) && pairsAfter == pairs + AcceptedIn(tags, accepted)
    && forall i :: 0 <= i < |tags| ==>
         var earlier := AcceptedIn(tags[..i], accepted);
         tags[i] in accepted <==> TagFits(cfg, tags[i], keys + KeysIn(earlier), pairs + earlier)
  }

  /** What is in use before the `i`-th name, by the verdicts of the whole loop. */
  function NamesBefore(cfg: Config, start: set<string>, end: NameScan, names: seq<string>, i: nat): set<string>
    requires i <= |names|
  {
    start + set n | n in names[..i] && NameAdmitted(cfg, end, n)
  }

  lemma FirstNameVerdict(cfg: Config, st: NameScan, names: seq<string>)
    requires names != []
    ensures var end, next := ScanNames(cfg, st, names), NameStep(cfg, st, names[0]);
            && end == ScanNames(cfg, next, names[1..])
            && (NameAdmitted(cfg, end, names[0]) <==>
                Utf8Len(names[0]) <= cfg.maxMetricNameLength && (names[0] in st.names || |st.names| < cfg.maxMetricNamesPerRun))
            && next.names == st.names + if NameAdmitted(cfg, end, names[0]) then {names[0]} else {}
  {
    NameVerdictFinal(cfg, st, names);
    assert names[0] in st.names ==> st.names + {names[0]} == st.names;
  }

  lemma NamesBeforeNext(cfg: Config, start: set<string>, end: NameScan, names: seq<string>, i: nat)
    requires 0 < i <= |names|
    ensures NamesBefore(cfg, start, end, names, i)
         == NamesBefore(cfg, start + if NameAdmitted(cfg, end, names[0]) then {names[0]} else {}, end, names[1..], i - 1)
  {
    hide NameAdmitted;
    assert names[..i] == [names[0]] + names[1..][..i - 1];
  }

  lemma {:induction false} NameVerdict(cfg: Config, st: NameScan, names: seq<string>, i: nat)
    requires i < |names|
    ensures var end := ScanNames(cfg, st, names);
            var before := NamesBefore(cfg, st.names, end, names, i);
            NameAdmitted(cfg, end, names[i]) <==>
            Utf8Len(names[i]) <= cfg.maxMetricNameLength && (names[i] in before || |before| < cfg.maxMetricNamesPerRun)
    decreases i
  {
    FirstNameVerdict(cfg, st, names);
    var end := ScanNames(cfg, st, names);
    hide NameStep, NameAdmitted, ScanNames, Utf8Len;
    if i == 0 {
      assert NamesBefore(cfg, st.names, end, names, 0) == st.names;
    } else {
      NamesBeforeNext(cfg, st.names, end, names, i);
      hide NamesBefore;
      NameVerdict(cfg, NameStep(cfg, st, names[0]), names[1..], i - 1);
    }
  }

  lemma {:induction false} NamesAfter(cfg: Config, st: NameScan, names: seq<string>)
    ensures var end := ScanNames(cfg, st, names); end.names == NamesBefore(cfg, st.names, end, names, |names|)
    decreases |names|
  {
    if names != [] {
      FirstNameVerdict(cfg, st, names);
      var end := ScanNames(cfg, st, names);
      hide NameStep, NameAdmitted, ScanNames;
      NamesBeforeNext(cfg, st.names, end, names, |names|);
      hide NamesBefore;
      NamesAfter(cfg, NameStep(cfg, st, names[0]), names[1..]);
    }
  }

  lemma NamesByVerdict(cfg: Config, start: set<string>, end: NameScan, names: seq<string>, i: nat, accepted: seq<string>)
    requires i <= |names| && accepted == Filter(names, n => NameAdmitted(cfg, end, n))
    ensures NamesBefore(cfg, start, end, names, i) == start + AcceptedIn(names[..i], accepted)
  {
    hide Filter, NameAdmitted;
    forall n | n in names[..i] ensures n in accepted <==> NameAdmitted(cfg, end, n) {
      FilterMember(names, x => NameAdmitted(cfg, end, x), n);
    }
  }

  // tags

  function TagsBefore(cfg: Config, end: TagScan, tags: seq<Tag>, i: nat): set<Tag>
    requires i <= |tags|
  {
    set t | t in tags[..i] && TagAdmitted(cfg, end, t)
  }

  lemma FirstTagVerdict(cfg: Config, st: TagScan, tags: seq<Tag>)
    requires tags != []
    ensures var end, next := ScanTags(cfg, st, tags), TagStep(cfg, st, tags[0]);
            && end == ScanTags(cfg, next, tags[1..])
            && (TagAdmitted(cfg, end, tags[0]) <==> TagFits(cfg, tags[0], st.keys, st.pairs))
            && next.keys == st.keys + (if TagAdmitted(cfg, end, tags[0]) then {tags[0].0} else {})
            && next.pairs == st.pairs + (if TagAdmitted(cfg, end, tags[0]) then {tags[0]} else {})
  {
    TagVerdictFinal(cfg, st, tags);
    hide Utf8Len, TagAdmitted;
    var end := ScanTags(cfg, st, tags);
    assert st.keys + {} == st.keys && st.pairs + {} == st.pairs;
  }

  lemma TagsBeforeNext(cfg: Config, end: TagScan, tags: seq<Tag>, i: nat)
    requires 0 < i <= |tags|
    ensures TagsBefore(cfg, end, tags, i)
         == (if TagAdmitted(cfg, end, tags[0]) then {tags[0]} else {}) + TagsBefore(cfg, end, tags[1..], i - 1)
  {
    hide TagAdmitted;
    assert tags[..i] == [tags[0]] + tags[1..][..i - 1];
  }

  lemma KeysTogether(keys: set<string>, pairs: set<Tag>, first: set<Tag>, tags: set<Tag>)
    ensures keys + KeysIn(first + tags) == keys + KeysIn(first) + KeysIn(tags)
    ensures pairs + (first + tags) == pairs + first + tags
  {
    assert KeysIn(first + tags) == KeysIn(first) + KeysIn(tags) by {
      forall k ensures k in KeysIn(first + tags) <==> k in KeysIn(first) + KeysIn(tags) {
        if t :| t in first && t.0 == k { assert t in first + tags; }
        if t :| t in tags && t.0 == k { assert t in first + tags; }
      }
    }
  }

  lemma KeysOfNone()
    ensures KeysIn({}) == {}
    ensures forall t: Tag :: KeysIn({t}) == {t.0}
  {
    forall t: Tag ensures KeysIn({t}) == {t.0} { assert t in {t}; }
  }

  lemma SetsBeforeNext(cfg: Config, end: TagScan, st: TagScan, next: TagScan, tags: seq<Tag>, i: nat)
    requires 0 < i <= |tags|
    requires next.keys == st.keys + (if TagAdmitted(cfg, end, tags[0]) then {tags[0].0} else {})
    requires next.pairs == st.pairs + (if TagAdmitted(cfg, end, tags[0]) then {tags[0]} else {})
    ensures st.keys + KeysIn(TagsBefore(cfg, end, tags, i)) == next.keys + KeysIn(TagsBefore(cfg, end, tags[1..], i - 1))
    ensures st.pairs + TagsBefore(cfg, end, tags, i) == next.pairs + TagsBefore(cfg, end, tags[1..], i - 1)
  {
    KeysOfNone();
    TagsBeforeNext(cfg, end, tags, i);
    hide TagsBefore, KeysIn, TagAdmitted;
    KeysTogether(st.keys, st.pairs, if TagAdmitted(cfg, end, tags[0]) then {tags[0]} else {}, TagsBefore(cfg, end, tags[1..], i - 1));
  }

  lemma NoTagsBefore(cfg: Config, end: TagScan, st: TagScan, tags: seq<Tag>)
    ensures TagsBefore(cfg, end, tags, 0) == {}
    ensures st.keys + KeysIn({}) == st.keys && st.pairs + {} == st.pairs
  {
    KeysOfNone();
  }

  lemma {:induction false} TagVerdict(cfg: Config, st: TagScan, tags: seq<Tag>, i: nat)
    requires i < |tags|
    ensures var end := ScanTags(cfg, st, tags);
            var before := TagsBefore(cfg, end, tags, i);
            TagAdmitted(cfg, end, tags[i]) <==> TagFits(cfg, tags[i], st.keys + KeysIn(before), st.pairs + before)
    decreases i
  {
    hide TagStep, TagAdmitted, ScanTags, TagFits, TagsBefore, KeysIn;
    FirstTagVerdict(cfg, st, tags);
    var end, next := ScanTags(cfg, st, tags), TagStep(cfg, st, tags[0]);
    if i == 0 {
      NoTagsBefore(cfg, end, st, tags);
    } else {
      assert tags[1..][i - 1] == tags[i];
      SetsBeforeNext(cfg, end, st, next, tags, i);
      TagVerdict(cfg, next, tags[1..], i - 1);
    }
  }

  lemma {:induction false} TagsAfter(cfg: Config, st: TagScan, tags: seq<Tag>)
    ensures var end := ScanTags(cfg, st, tags);
            var all := TagsBefore(cfg, end, tags, |tags|);
            end.keys == st.keys + KeysIn(all) && end.pairs == st.pairs + all
    decreases |tags|
  {
    if tags == [] {
      NoTagsBefore(cfg, st, st, tags);
    } else {
      FirstTagVerdict(cfg, st, tags);
      var end, next := ScanTags(cfg, st, tags), TagStep(cfg, st, tags[0]);
      hide TagStep, TagAdmitted, ScanTags, TagFits, TagsBefore, KeysIn;
      SetsBeforeNext(cfg, end, st, next, tags, |tags|);
      TagsAfter(cfg, next, tags[1..]);
    }
  }

  lemma TagsByVerdict(cfg: Config, end: TagScan, tags: seq<Tag>, i: nat, accepted: seq<Tag>)
    requires i <= |tags| && accepted == Filter(tags, t => TagAdmitted(cfg, end, t))
    ensures TagsBefore(cfg, end, tags, i) == AcceptedIn(tags[..i], accepted)
  {
    hide Filter, TagAdmitted;
    forall t | t in tags[..i] ensures t in accepted <==> TagAdmitted(cfg, end, t) {
      FilterMember(tags, x => TagAdmitted(cfg, end, x), t);
    }
  }

  lemma NamesDecide(cfg: Config, t: Tracker, project: string, run: string, tags: seq<Tag>, names: seq<string>)
    ensures var (after, v) := Validated(cfg, t, project, run, tags, names);
            && NamesDecided(cfg, RunOf(t, run).metricNames, names, v.acceptedMetrics, RunOf(after, run).metricNames)
            && v.acceptedMetrics == Filter(names, n => n in v.acceptedMetrics) && v.droppedMetrics == Filter(names, n => n !in v.acceptedMetrics)
  {
    ValidatePartitions(cfg, t, project, run, tags, names);
    var (after, v) := Validated(cfg, t, project, run, tags, names);
    var start := NameScan(RunOf(t, run).metricNames, [], [], BatchTags(cfg, t, project, run, tags).warnings);
    var end := ScanNames(cfg, start, names);
    NamesAfter(cfg, start, names);
    NamesByVerdict(cfg, start.names, end, names, |names|, v.acceptedMetrics);
    assert names[..|names|] == names;
    hide Filter, ScanNames, ScanTags, NameAdmitted, NamesBefore, AcceptedIn, Utf8Len;
    forall n | n in names ensures n in v.acceptedMetrics <==> NameAdmitted(cfg, end, n) {
      FilterMember(names, x => NameAdmitted(cfg, end, x), n);
    }
    SameFilter(names, n => NameAdmitted(cfg, end, n), n => n in v.acceptedMetrics);
    SameFilter(names, n => !NameAdmitted(cfg, end, n), n => n !in v.acceptedMetrics);
    forall i | 0 <= i < |names|
      ensures var before := start.names + AcceptedIn(names[..i], v.acceptedMetrics);
              names[i] in v.acceptedMetrics <==>
                Utf8Len(names[i]) <= cfg.maxMetricNameLength && (names[i] in before || |before| < cfg.maxMetricNamesPerRun)
    {
      NameVerdict(cfg, start, names, i);
      NamesByVerdict(cfg, start.names, end, names, i, v.acceptedMetrics);
    }
  }

  lemma TagsDecideSets(cfg: Config, st: TagScan, tags: seq<Tag>, accepted: seq<Tag>)
    requires accepted == Filter(tags, x => TagAdmitted(cfg, ScanTags(cfg, st, tags), x))
    ensures TagsDecided(cfg, st.keys, st.pairs, tags, accepted, ScanTags(cfg, st, tags).keys, ScanTags(cfg, st, tags).pairs)
  {
    var end := ScanTags(cfg, st, tags);
    TagsAfter(cfg, st, tags);
    TagsByVerdict(cfg, end, tags, |tags|, accepted);
    assert tags[..|tags|] == tags;
    hide Filter, ScanTags, TagAdmitted, TagsBefore, AcceptedIn, KeysIn, TagFits;
    forall i | 0 <= i < |tags|
      ensures var earlier := AcceptedIn(tags[..i], accepted);
              tags[i] in accepted <==> TagFits(cfg, tags[i], st.keys + KeysIn(earlier), st.pairs + earlier)
    {
      TagVerdict(cfg, st, tags, i);
      TagsByVerdict(cfg, end, tags, i, accepted);
      FilterMember(tags, y => TagAdmitted(cfg, end, y), tags[i]);
    }
  }

  lemma TagsDecide(cfg: Config, t: Tracker, project: string, run: string, tags: seq<Tag>, names: seq<string>)
    ensures var (after, v) := Validated(cfg, t, project, run, tags, names);
            && TagsDecided(cfg, RunOf(t, run).tagKeys, PairsOf(t, project), tags, v.acceptedTags, RunOf(after, run).tagKeys, PairsOf(after, project))
            && v.acceptedTags == Filter(tags, x => x in v.acceptedTags) && v.droppedTags == Filter(tags, x => x !in v.acceptedTags)
  {
    ValidatePartitions(cfg, t, project, run, tags, names);
    var (after, v) := Validated(cfg, t, project, run, tags, names);
    var start := TagScan(RunOf(t, run).tagKeys, PairsOf(t, project), [], [], []);
    var end := ScanTags(cfg, start, tags);
    TagsDecideSets(cfg, start, tags, v.acceptedTags);
    hide Filter, ScanNames, ScanTags, TagAdmitted, TagsDecided;
    forall x | x in tags ensures x in v.acceptedTags <==> TagAdmitted(cfg, end, x) {
      FilterMember(tags, y => TagAdmitted(cfg, end, y), x);
    }
    SameFilter(tags, x => TagAdmitted(cfg, end, x), x => x in v.acceptedTags);
    SameFilter(tags, x => !TagAdmitted(cfg, end, x), x => x !in v.acceptedTags);
  }

  /** Exactly what is accepted, by the limits, the state before and the batch. Accepted and dropped items
      split the batch in order. */
  lemma ValidatedDecides(cfg: Config, t: Tracker, project: string, run: string, tags: seq<Tag>, names: seq<string>)
    ensures var (after, v) := Validated(cfg, t, project, run, tags, names);
            && NamesDecided(cfg, RunOf(t, run).metricNames, names, v.acceptedMetrics, RunOf(after, run).metricNames)
            && v.acceptedMetrics == Filter(names, n => n in v.acceptedMetrics) && v.droppedMetrics == Filter(names, n => n !in v.acceptedMetrics)
    ensures var (after, v) := Validated(cfg, t, project, run, tags, names);
            && TagsDecided(cfg, RunOf(t, run).tagKeys, PairsOf(t, project), tags, v.acceptedTags, RunOf(after, run).tagKeys, PairsOf(after, project))
            && v.acceptedTags == Filter(tags, x => x in v.acceptedTags) && v.droppedTags == Filter(tags, x => x !in v.acceptedTags)
    ensures var (after, v) := Validated(cfg, t, project, run, tags, names);
            && (forall other :: other != run ==> RunOf(after, other) == RunOf(t, other))
            && (forall other :: other != project ==> PairsOf(after, other) == PairsOf(t, other))
  {
    ValidatePartitions(cfg, t, project, run, tags, names);
    NamesDecide(cfg, t, project, run, tags, names);
    TagsDecide(cfg, t, project, run, tags, names);
    hide ScanTags, ScanNames, NamesDecided, TagsDecided, Filter;
  }

  lemma FitsUnder<T>(before: set<T>, x: T, all: set<T>, limit: nat)
    requires before <= all && x in all && |all| <= limit
    ensures x in before || |before| < limit
  {
    if x !in before {
      SubsetSize(before + {x}, all);
    }
  }

  lemma SubsetSize<T>(a: set<T>, b: set<T>)
    requires a <= b
    ensures |a| <= |b|
  {
    assert b == a + (b - a);
  }

  function ShortNames(cfg: Config, names: seq<string>): set<string> {
    set n | n in names && Utf8Len(n) <= cfg.maxMetricNameLength
  }

  function ShortTags(cfg: Config, tags: seq<Tag>): set<Tag> {
    set x | x in tags && Utf8Len(x.0) <= cfg.maxTagKeyLength && Utf8Len(x.1) <= cfg.maxTagValueLength
  }

  /** What fits the limits is not dropped: if the names that are short enough fit beside those in use, they
      are all accepted, and the same for tags. */
  lemma NothingDroppedNeedlessly(cfg: Config, t: Tracker, project: string, run: string, tags: seq<Tag>, names: seq<string>)
    ensures var v, short := Validated(cfg, t, project, run, tags, names).1, ShortNames(cfg, names);
            |RunOf(t, run).metricNames + short| <= cfg.maxMetricNamesPerRun ==> forall n :: n in short ==> n in v.acceptedMetrics
    ensures var v, short := Validated(cfg, t, project, run, tags, names).1, ShortTags(cfg, tags);
            |RunOf(t, run).tagKeys + KeysIn(short)| <= cfg.maxTagKeysPerRun && |PairsOf(t, project) + short| <= cfg.maxTagsPerProject ==>
              forall x :: x in short ==> x in v.acceptedTags
  {
    ValidatedDecides(cfg, t, project, run, tags, names);
    var (after, v) := Validated(cfg, t, project, run, tags, names);
    hide Filter, Validated, ShortNames, ShortTags, NamesDecided, TagsDecided;
    var start, keys, pairs := RunOf(t, run).metricNames, RunOf(t, run).tagKeys, PairsOf(t, project);
    if |start + ShortNames(cfg, names)| <= cfg.maxMetricNamesPerRun {
      forall n | n in ShortNames(cfg, names) ensures n in v.acceptedMetrics {
        ShortNameStays(cfg, start, names, v.acceptedMetrics, RunOf(after, run).metricNames, n);
      }
    }
    if |keys + KeysIn(ShortTags(cfg, tags))| <= cfg.maxTagKeysPerRun && |pairs + ShortTags(cfg, tags)| <= cfg.maxTagsPerProject {
      forall x | x in ShortTags(cfg, tags) ensures x in v.acceptedTags {
        ShortTagStays(cfg, keys, pairs, tags, v.acceptedTags, RunOf(after, run).tagKeys, PairsOf(after, project), x);
      }
    }
  }

  lemma AcceptedNamesShort(cfg: Config, start: set<string>, names: seq<string>, accepted: seq<string>, after: set<string>, i: nat)
    requires NamesDecided(cfg, start, names, accepted, after) && i <= |names|
    ensures AcceptedIn(names[..i], accepted) <= ShortNames(cfg, names)
  {
    hide Utf8Len;
    forall n | n in AcceptedIn(names[..i], accepted) ensures n in ShortNames(cfg, names) {
      var j :| 0 <= j < i && names[j] == n;
    }
  }

  lemma ShortNameStays(cfg: Config, start: set<string>, names: seq<string>, accepted: seq<string>, after: set<string>, n: string)
    requires NamesDecided(cfg, start, names, accepted, after)
    requires n in ShortNames(cfg, names) && |start + ShortNames(cfg, names)| <= cfg.maxMetricNamesPerRun
    ensures n in accepted
  {
    var i :| 0 <= i < |names| && names[i] == n;
    AcceptedNamesShort(cfg, start, names, accepted, after, i);
    hide AcceptedIn, Utf8Len;
    FitsUnder(start + AcceptedIn(names[..i], accepted), n, start + ShortNames(cfg, names), cfg.maxMetricNamesPerRun);
  }

  lemma AcceptedTagsShort(
    cfg: Config, keys: set<string>, pairs: set<Tag>, tags: seq<Tag>, accepted: seq<Tag>, keysAfter: set<string>, pairsAfter: set<Tag>, i: nat)
    requires TagsDecided(cfg, keys, pairs, tags, accepted, keysAfter, pairsAfter) && i <= |tags|
    ensures AcceptedIn(tags[..i], accepted) <= ShortTags(cfg, tags)
  {
    hide Utf8Len;
    forall x | x in AcceptedIn(tags[..i], accepted) ensures x in ShortTags(cfg, tags) {
      var j :| 0 <= j < i && tags[j] == x;
    }
  }

  lemma KeysMonotone(a: set<Tag>, b: set<Tag>)
    requires a <= b
    ensures KeysIn(a) <= KeysIn(b)
  {
  }

  lemma ShortTagStays(
    cfg: Config, keys: set<string>, pairs: set<Tag>, tags: seq<Tag>, accepted: seq<Tag>, keysAfter: set<string>, pairsAfter: set<Tag>, x: Tag)
    requires TagsDecided(cfg, keys, pairs, tags, accepted, keysAfter, pairsAfter) && x in ShortTags(cfg, tags)
    requires |keys + KeysIn(ShortTags(cfg, tags))| <= cfg.maxTagKeysPerRun && |pairs + ShortTags(cfg, tags)| <= cfg.maxTagsPerProject
    ensures x in accepted
  {
    var i :| 0 <= i < |tags| && tags[i] == x;
    var earlier, short := AcceptedIn(tags[..i], accepted), ShortTags(cfg, tags);
    AcceptedTagsShort(cfg, keys, pairs, tags, accepted, keysAfter, pairsAfter, i);
    KeysMonotone(earlier, short);
    KeyIn(short, x);
    hide AcceptedIn, KeysIn, Utf8Len;
    FitsUnder(keys + KeysIn(earlier), x.0, keys + KeysIn(short), cfg.maxTagKeysPerRun);
    FitsUnder(pairs + earlier, x, pairs + short, cfg.maxTagsPerProject);
  }

  lemma KeyIn(tags: set<Tag>, x: Tag)
    requires x in tags
    ensures x.0 in KeysIn(tags)
  {
  }

  // ------------------------------------------------------------------ the warnings

  /** One warning for each dropped name that is too long; one for the limit if the first drop was for it. */
  function NameNotes(cfg: Config, dropped: seq<string>): seq<Warning> {
    if dropped == [] then []
    else
      var last := |dropped| - 1;
      NameNotes(cfg, dropped[..last]) +
        if Utf8Len(dropped[last]) > cfg.maxMetricNameLength then [MetricNameTooLong(dropped[last])]
        else if last == 0 then [RunMetricNamesFull(cfg.maxMetricNamesPerRun)]
        else []
  }

  /** The same for tags, where `full` tells which limit the first drop met. */
  function TagNotes(cfg: Config, dropped: seq<Tag>, full: Warning): seq<Warning> {
    if dropped == [] then []
    else
      var last := |dropped| - 1;
      var tag := dropped[last];
      TagNotes(cfg, dropped[..last], full) +
        if Utf8Len(tag.0) > cfg.maxTagKeyLength then [TagKeyTooLong(tag.0)]
        else if Utf8Len(tag.1) > cfg.maxTagValueLength then [TagValueTooLong(tag.0)]
        else if last == 0 then [full]
        else []
  }

  lemma {:induction false} NamesWarned(cfg: Config, st: NameScan, names: seq<string>, before: seq<Warning>)
    requires st.warnings == before + NameNotes(cfg, st.dropped)
    ensures var end := ScanNames(cfg, st, names); end.warnings == before + NameNotes(cfg, end.dropped)
    decreases |names|
  {
    if names != [] {
      var next := NameStep(cfg, st, names[0]);
      assert (st.dropped + [names[0]])[..|st.dropped|] == st.dropped;
      hide Utf8Len;
      assert next.warnings == before + NameNotes(cfg, next.dropped);
      NamesWarned(cfg, next, names[1..], before);
    }
  }

  lemma TagStepWarns(cfg: Config, st: TagScan, tag: Tag, full: Warning)
    requires st.dropped != [] && st.warnings == TagNotes(cfg, st.dropped, full)
    ensures var next := TagStep(cfg, st, tag); next.warnings == TagNotes(cfg, next.dropped, full)
  {
    hide Utf8Len;
    assert (st.dropped + [tag])[..|st.dropped|] == st.dropped;
    assert st.warnings + [] == st.warnings;
  }

  lemma {:induction false} LaterTagsWarned(cfg: Config, st: TagScan, tags: seq<Tag>, full: Warning)
    requires st.dropped != [] && st.warnings == TagNotes(cfg, st.dropped, full)
    ensures var end := ScanTags(cfg, st, tags); end.warnings == TagNotes(cfg, end.dropped, full)
    decreases |tags|
  {
    if tags != [] {
      TagStepWarns(cfg, st, tags[0], full);
      DropsStay(cfg, st, tags[0]);
      hide TagStep, TagNotes;
      LaterTagsWarned(cfg, TagStep(cfg, st, tags[0]), tags[1..], full);
    }
  }

  function Members<T>(s: seq<T>): set<T> {
    set x | x in s
  }

  lemma DropsStay(cfg: Config, st: TagScan, tag: Tag)
    requires st.dropped != []
    ensures TagStep(cfg, st, tag).dropped != []
  {
  }

  /** Which limit a tag of admissible length meets first. */
  function FullFor(cfg: Config, keys: set<string>, tag: Tag): Warning {
    if tag.0 !in keys && |keys| >= cfg.maxTagKeysPerRun then RunTagKeysFull(cfg.maxTagKeysPerRun) else ProjectTagsFull(cfg.maxTagsPerProject)
  }

  lemma FirstDropWarns(cfg: Config, st: TagScan, tag: Tag)
    requires st.dropped == [] && st.warnings == []
    ensures var next := TagStep(cfg, st, tag);
            if next.dropped == [] then next.warnings == [] && next.keys == st.keys + {tag.0}
            else next.dropped == [tag] && next.warnings == TagNotes(cfg, [tag], FullFor(cfg, st.keys, tag))
  {
    hide Utf8Len;
    assert [tag][..0] == [];
    assert TagNotes(cfg, [], FullFor(cfg, st.keys, tag)) == [];
  }

  /** The first `i` tags are accepted, and the next one, if there is one, is the first that is dropped. */
  lemma {:induction false} TagsWarned(cfg: Config, st: TagScan, tags: seq<Tag>) returns (i: nat)
    requires st.dropped == [] && st.warnings == []
    ensures i <= |tags|
    ensures var end := ScanTags(cfg, st, tags);
            if i == |tags| then end.dropped == [] && end.warnings == []
            else end.dropped != [] && end.dropped[0] == tags[i]
                 && end.warnings == TagNotes(cfg, end.dropped, FullFor(cfg, st.keys + KeysIn(Members(tags[..i])), tags[i]))
    decreases |tags|
  {
    if tags == [] {
      i := 0;
    } else {
      var next := TagStep(cfg, st, tags[0]);
      FirstDropWarns(cfg, st, tags[0]);
      hide TagStep, TagNotes;
      if next.dropped == [] {
        var j := TagsWarned(cfg, next, tags[1..]);
        i := j + 1;
        FirstKeys(st.keys, tags, i);
      } else {
        i := 0;
        assert Members(tags[..0]) == {};
        KeysOfNone();
        assert st.keys + {} == st.keys;
        LaterTagsWarned(cfg, next, tags[1..], FullFor(cfg, st.keys, tags[0]));
        DropsKept(cfg, next, tags[1..]);
      }
    }
  }

  lemma {:induction false} DropsKept(cfg: Config, st: TagScan, tags: seq<Tag>)
    ensures st.dropped <= ScanTags(cfg, st, tags).dropped
    decreases |tags|
  {
    if tags != [] { DropsKept(cfg, TagStep(cfg, st, tags[0]), tags[1..]); }
  }

  lemma FirstKeys(keys: set<string>, tags: seq<Tag>, i: nat)
    requires 0 < i <= |tags|
    ensures keys + KeysIn(Members(tags[..i])) == keys + {tags[0].0} + KeysIn(Members(tags[1..][..i - 1]))
  {
    var first, rest, all := {tags[0]}, Members(tags[1..][..i - 1]), Members(tags[..i]);
    assert tags[..i] == [tags[0]] + tags[1..][..i - 1];
    assert all == first + rest;
    KeysOfNone();
    KeysTogether(keys, {}, first, rest);
  }

  /** Exactly the warnings: of the tags, then of the names, one for each item too long and one where the
      first drop of its kind was for a limit. */
  lemma WarningsDecided(cfg: Config, t: Tracker, project: string, run: string, tags: seq<Tag>, names: seq<string>) returns (i: nat)
    ensures i <= |tags|
    ensures var v := Validated(cfg, t, project, run, tags, names).1;
            if i == |tags| then v.droppedTags == [] && v.warnings == NameNotes(cfg, v.droppedMetrics)
            else v.droppedTags != [] && v.droppedTags[0] == tags[i]
                 && v.warnings == TagNotes(cfg, v.droppedTags, FullFor(cfg, RunOf(t, run).tagKeys + KeysIn(Members(tags[..i])), tags[i]))
                                  + NameNotes(cfg, v.droppedMetrics)
  {
    hide TagStep, NameStep, TagNotes, FullFor, KeysIn, ScanTags, ScanNames;
    i := TagsWarned(cfg, TagScan(RunOf(t, run).tagKeys, PairsOf(t, project), [], [], []), tags);
    var before := BatchTags(cfg, t, project, run, tags).warnings;
    assert before + [] == before;
    NamesWarned(cfg, NameScan(RunOf(t, run).metricNames, [], [], before), names, before);
    assert [] + NameNotes(cfg, BatchNames(cfg, t, run, names, before).dropped) == NameNotes(cfg, BatchNames(cfg, t, run, names, before).dropped);
  }

  // ------------------------------------------------------------------ every history

  datatype Operation =
    | ValidateBatch(project: string, run: string, tags: seq<Tag>, names: seq<string>)
    | ClearRun(run: string)
    | ClearAll

  function Apply(cfg: Config, t: Tracker, op: Operation): Tracker {
    match op
    case ValidateBatch(project, run, tags, names) => Validated(cfg, t, project, run, tags, names).0
    case ClearRun(run) => t.(runs := t.runs - {run})
    case ClearAll => Tracker(map[], map[])
  }

  function ApplyAll(cfg: Config, ops: seq<Operation>): Tracker {
    if ops == [] then Tracker(map[], map[])
    else Apply(cfg, ApplyAll(cfg, ops[..|ops| - 1]), ops[|ops| - 1])
  }

  /** From an empty tracker, no history of calls takes a run or a project past its limit. */
  lemma {:induction false} CapsAlways(cfg: Config, ops: seq<Operation>)
    ensures Caps(cfg, ApplyAll(cfg, ops))
    decreases |ops|
  {
    if ops != [] {
      var before, op := ApplyAll(cfg, ops[..|ops| - 1]), ops[|ops| - 1];
      CapsAlways(cfg, ops[..|ops| - 1]);
      if op.ValidateBatch? {
        ValidateKeepsCaps(cfg, before, op.project, op.run, op.tags, op.names);
      }
    }
  }

  class CardinalityTracker {
    const config: Config
    var runs: map<string, RunCardinality>
    var projects: map<string, set<Tag>>

    ghost function Contents(): Tracker
      reads this
    {
      Tracker(runs, projects)
    }

    ghost predicate Valid()
      reads this
    {
      Caps(config, Contents())
    }

    constructor (config: Config)
      ensures Valid() && this.config == config && Contents() == Tracker(map[], map[])
    {
      this.config := config;
      this.runs := map[];
      this.projects := map[];
    }

    method ValidateBatch(project: string, run: string, tags: seq<Tag>, names: seq<string>) returns (result: Validation)
      requires Valid()
      modifies this
      ensures Valid()
      ensures (Contents(), result) == Validated(config, old(Contents()), project, run, tags, names)
      ensures NamesDecided(config, RunOf(old(Contents()), run).metricNames, names, result.acceptedMetrics, RunOf(Contents(), run).metricNames)
      ensures TagsDecided(config, RunOf(old(Contents()), run).tagKeys, PairsOf(old(Contents()), project), tags, result.acceptedTags,
                          RunOf(Contents(), run).tagKeys, PairsOf(Contents(), project))
    {
      hide NamesDecided, TagsDecided;
      ghost var before := Contents();
      ValidatedDecides(config, before, project, run, tags, names);
      var entry := if run in runs then runs[run] else RunCardinality({}, {});
      var pairs := if project in projects then projects[project] else {};
      var tagScan := TagScan(entry.tagKeys, pairs, [], [], []);
      var i := 0;
      while i < |tags|
        invariant 0 <= i <= |tags|
        invariant ScanTags(config, tagScan, tags[i..]) == BatchTags(config, before, project, run, tags)
      {
        assert tags[i..][1..] == tags[i + 1..];
        tagScan := TagStep(config, tagScan, tags[i]);
        i := i + 1;
      }
      var nameScan := NameScan(entry.metricNames, [], [], tagScan.warnings);
      i := 0;
      while i < |names|
        invariant 0 <= i <= |names|
        invariant ScanNames(config, nameScan, names[i..]) == BatchNames(config, before, run, names, tagScan.warnings)
      {
        assert names[i..][1..] == names[i + 1..];
        nameScan := NameStep(config, nameScan, names[i]);
        i := i + 1;
      }
      ValidateKeepsCaps(config, before, project, run, tags, names);
      runs := runs[run := RunCardinality(tagScan.keys, nameScan.names)];
      projects := projects[project := tagScan.pairs];
      result := Validation(tagScan.accepted, nameScan.accepted, tagScan.dropped, nameScan.dropped, nameScan.warnings);
    }

    method ClearRun(run: string)
      requires Valid()
      modifies this
      ensures Valid()
      ensures Contents() == Apply(config, old(Contents()), Operation.ClearRun(run))
      ensures runs == old(runs) - {run} && projects == old(projects)
    {
      runs := runs - {run};
    }

    method ClearAll()
      modifies this
      ensures Valid()
      ensures Contents() == Apply(config, old(Contents()), Operation.ClearAll)
      ensures runs == map[] && projects == map[]
    {
      runs := map[];
      projects := map[];
    }
  }
}
