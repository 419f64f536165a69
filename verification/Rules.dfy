// The rule engine: which preset, if any, a file is to be transcoded with.
module Rules {
  import opened Sequences

  // What the rules look at.
  datatype Metadata = Metadata(
    videoCodec: string, resolutionTag: string, isHdr: bool, totalBitrate: int, hasSurround: bool)

  // A condition with its value read; a key the engine does not know is ignored.
  datatype Condition =
    | CodecIn(allowed: seq<string>)
    | ResolutionIn(allowed: seq<string>)
    | HdrIs(wanted: bool)
    | BitrateAtLeast(bps: int)
    | SurroundIs(wanted: bool)
    | UnknownKey

  datatype Rule = Rule(priority: int, conditions: seq<Condition>, action: string, preset: string)

  datatype Config = Config(rules: seq<Rule>, defaultAction: string, defaultPreset: string)

  // The rules in the order they are tried, with the defaults filled in.
  datatype Engine = Engine(rules: seq<Rule>, defaultAction: string, defaultPreset: string)

  datatype Decision = Decision(action: string, preset: string)

  // Sorting is not stable: rules of one priority may come in any order.
  ghost predicate Builds(c: Config, e: Engine) {
    && multiset(e.rules) == multiset(c.rules)
    && (forall i, j :: 0 <= i < j < |e.rules| ==> e.rules[i].priority >= e.rules[j].priority)
    && e.defaultAction == (if c.defaultAction == "" then "transcode" else c.defaultAction)
    && e.defaultPreset == (if c.defaultPreset == "" then "balanced-hevc" else c.defaultPreset)
  }

  predicate Holds(c: Condition, meta: Metadata) {
    match c
    case CodecIn(allowed) => Lower(meta.videoCodec) in allowed
    case ResolutionIn(allowed) => Lower(meta.resolutionTag) in allowed
    case HdrIs(wanted) => meta.isHdr == wanted
    case BitrateAtLeast(bps) => meta.totalBitrate >= bps
    case SurroundIs(wanted) => meta.hasSurround == wanted
    case UnknownKey => true
  }

  predicate Matches(r: Rule, meta: Metadata) {
    forall i :: 0 <= i < |r.conditions| ==> Holds(r.conditions[i], meta)
  }

  function DecisionOf(e: Engine, r: Rule): Decision {
    var action := if r.action == "" then e.defaultAction else r.action;
    Decision(action, if r.preset == "" && action == "transcode" then e.defaultPreset else r.preset)
  }

  // The rule that decides: the i-th, matched by the file when none before it is.
  predicate FirstMatch(rules: seq<Rule>, meta: Metadata, i: nat) {
    i < |rules| && Matches(rules[i], meta) && forall j :: 0 <= j < i ==> !Matches(rules[j], meta)
  }

  predicate NoMatch(rules: seq<Rule>, meta: Metadata) {
    forall j :: 0 <= j < |rules| ==> !Matches(rules[j], meta)
  }

  ghost predicate Decided(e: Engine, meta: Metadata, d: Decision) {
    || (NoMatch(e.rules, meta) && d == Decision(e.defaultAction, e.defaultPreset))
    || (exists i: nat :: FirstMatch(e.rules, meta, i) && d == DecisionOf(e, e.rules[i]))
  }

  method Evaluate(e: Engine, meta: Metadata) returns (d: Decision)
    ensures Decided(e, meta, d)
    ensures NoMatch(e.rules, meta) ==> d.action == e.defaultAction && d.preset == e.defaultPreset
    ensures forall i: nat :: FirstMatch(e.rules, meta, i) ==>
      && d.action == (if e.rules[i].action == "" then e.defaultAction else e.rules[i].action)
      && d.preset == (if e.rules[i].preset == "" && d.action == "transcode" then e.defaultPreset else e.rules[i].preset)
  {
    for i := 0 to |e.rules|
      invariant forall j :: 0 <= j < i ==> !Matches(e.rules[j], meta)
    {
      var matches := RuleMatches(e.rules[i], meta);
      if matches {
        assert FirstMatch(e.rules, meta, i);
        var action := e.rules[i].action;
        if action == "" {
          action := e.defaultAction;
        }
        var preset := e.rules[i].preset;
        if preset == "" && action == "transcode" {
          preset := e.defaultPreset;
        }
        return Decision(action, preset);
      }
    }
    return Decision(e.defaultAction, e.defaultPreset);
  }

  method RuleMatches(r: Rule, meta: Metadata) returns (matches: bool)
    ensures matches <==> Matches(r, meta)
  {
    for k := 0 to |r.conditions|
      invariant forall i :: 0 <= i < k ==> Holds(r.conditions[i], meta)
    {
      if !Holds(r.conditions[k], meta) {
        return false;
      }
    }
    return true;
  }

  // A rule fails by one condition: a lowered codec or resolution not in its list, a flag that
  // differs, or a bitrate below the bound.
  lemma FailsByOneCondition(r: Rule, meta: Metadata)
    ensures !Matches(r, meta) <==>
      exists i :: 0 <= i < |r.conditions| &&
                  match r.conditions[i]
                  case CodecIn(allowed) => Lower(meta.videoCodec) !in allowed
                  case ResolutionIn(allowed) => Lower(meta.resolutionTag) !in allowed
                  case HdrIs(wanted) => meta.isHdr != wanted
                  case BitrateAtLeast(bps) => meta.totalBitrate < bps
                  case SurroundIs(wanted) => meta.hasSurround != wanted
                  case UnknownKey => false
  {
    forall i | 0 <= i < |r.conditions|
      ensures !Holds(r.conditions[i], meta) <==>
        match r.conditions[i]
        case CodecIn(allowed) => Lower(meta.videoCodec) !in allowed
        case ResolutionIn(allowed) => Lower(meta.resolutionTag) !in allowed
        case HdrIs(wanted) => meta.isHdr != wanted
        case BitrateAtLeast(bps) => meta.totalBitrate < bps
        case SurroundIs(wanted) => meta.hasSurround != wanted
        case UnknownKey => false
    {
    }
  }

  // One file, one decision.
  lemma OneDecision(e: Engine, meta: Metadata, a: Decision, b: Decision)
    requires Decided(e, meta, a) && Decided(e, meta, b)
    ensures a == b
  {
    if !NoMatch(e.rules, meta) {
      var i: nat :| FirstMatch(e.rules, meta, i) && a == DecisionOf(e, e.rules[i]);
      var j: nat :| FirstMatch(e.rules, meta, j) && b == DecisionOf(e, e.rules[j]);
      assert i == j;
    }
  }

  lemma SameRules(c: Config, e: Engine, r: Rule)
    requires Builds(c, e)
    ensures r in c.rules <==> r in e.rules
  {
    assert r in c.rules <==> r in multiset(c.rules);
    assert r in e.rules <==> r in multiset(e.rules);
  }

  predicate IsHighestMatch(rules: seq<Rule>, meta: Metadata, r: Rule) {
    r in rules && Matches(r, meta) && forall q :: q in rules && Matches(q, meta) ==> q.priority <= r.priority
  }

  lemma FirstIsHighest(c: Config, e: Engine, meta: Metadata, i: nat)
    requires Builds(c, e) && FirstMatch(e.rules, meta, i)
    ensures IsHighestMatch(c.rules, meta, e.rules[i])
  {
    SameRules(c, e, e.rules[i]);
    forall q | q in c.rules && Matches(q, meta)
      ensures q.priority <= e.rules[i].priority
    {
      SameRules(c, e, q);
      var j :| 0 <= j < |e.rules| && e.rules[j] == q;
      assert i <= j;
    }
  }

  // Whatever order ties were put in, the deciding rule is a matching one of highest priority; the
  // defaults decide exactly when no configured rule matches.
  lemma HighestMatchDecides(c: Config, e: Engine, meta: Metadata, d: Decision)
    requires Builds(c, e) && Decided(e, meta, d)
    ensures if NoMatch(c.rules, meta) then d == Decision(e.defaultAction, e.defaultPreset)
            else exists r :: IsHighestMatch(c.rules, meta, r) && d == DecisionOf(e, r)
  {
    if NoMatch(e.rules, meta) {
      forall k | 0 <= k < |c.rules|
        ensures !Matches(c.rules[k], meta)
      {
        SameRules(c, e, c.rules[k]);
      }
    } else {
      var i: nat :| FirstMatch(e.rules, meta, i) && d == DecisionOf(e, e.rules[i]);
      FirstIsHighest(c, e, meta, i);
      var k :| 0 <= k < |c.rules| && c.rules[k] == e.rules[i];
      assert !NoMatch(c.rules, meta);
    }
  }

  // --- The presets a transcode can be given ---

  // Some file of these kinds is to be transcoded with the preset of this name.
  ghost predicate Decides(e: Engine, kinds: set<Metadata>, name: string) {
    exists meta :: meta in kinds && Decided(e, meta, Decision("transcode", name))
  }

  // The rules the program comes with.
  const SHIPPED: Engine := Engine(
    [Rule(100, [CodecIn(["hevc", "av1"])], "skip", ""), Rule(50, [CodecIn(["h264"])], "transcode", "balanced-hevc")],
    "transcode", "balanced-hevc")

  // With them a transcode is only ever given one preset, whatever the files.
  lemma ShippedDecides(kinds: set<Metadata>, name: string)
    requires Decides(SHIPPED, kinds, name)
    ensures name == "balanced-hevc"
  {
    var meta :| meta in kinds && Decided(SHIPPED, meta, Decision("transcode", name));
    assert DecisionOf(SHIPPED, SHIPPED.rules[0]).action == "skip";
    assert DecisionOf(SHIPPED, SHIPPED.rules[1]) == Decision("transcode", "balanced-hevc");
    if !NoMatch(SHIPPED.rules, meta) {
      var i: nat :| FirstMatch(SHIPPED.rules, meta, i) && Decision("transcode", name) == DecisionOf(SHIPPED, SHIPPED.rules[i]);
      assert i == 1;
    }
  }

  // The same with AV1 for files in H.264, and two kinds of files.
  const WITH_AV1: Engine := SHIPPED.(rules := [Rule(50, [CodecIn(["h264"])], "transcode", "efficient-av1")])
  const H264: Metadata := Metadata("h264", "1080p", false, 8_000_000, false)
  const VP9: Metadata := Metadata("vp9", "1080p", false, 8_000_000, false)

  lemma WithAv1DecidesBoth()
    ensures Decides(WITH_AV1, {H264, VP9}, "balanced-hevc") && Decides(WITH_AV1, {H264, VP9}, "efficient-av1")
  {
    assert Lower("vp9") == "vp9" && Lower("h264") == "h264";
    assert !Holds(WITH_AV1.rules[0].conditions[0], VP9);
    assert NoMatch(WITH_AV1.rules, VP9);
    assert Decided(WITH_AV1, VP9, Decision("transcode", "balanced-hevc"));
    assert "h264" in ["h264"];
    assert FirstMatch(WITH_AV1.rules, H264, 0);
    assert Decided(WITH_AV1, H264, Decision("transcode", "efficient-av1"));
  }
}
