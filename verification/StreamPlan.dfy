// The stream plan: ffmpeg mapping and codec arguments for the tracks of one file, and a reader
// that recovers from the argument strings which track becomes which audio output, and how.
module StreamPlan {
  import opened Wrappers
  import opened Sequences
  import Decimal

  datatype AudioTrack = AudioTrack(index: int, language: string, isDefault: bool, isSurround: bool, isLossless: bool)

  datatype Metadata = Metadata(audioTracks: seq<AudioTrack>, subtitleTracks: nat, attachedPics: seq<int>)

  datatype Decision = Decision(audioAction: string, retainSubtitles: bool)

  datatype Preservation = Preservation(retainSurround: bool, preferredLanguages: seq<string>, copyLossless: bool)

  datatype Plan = Plan(mapArgs: seq<string>, audioArgs: seq<string>, subtitleArgs: seq<string>)

  datatype Disposition = Copied | AacStereo

  datatype AudioOut = AudioOut(source: int, disposition: Disposition)

  // --- What the plan is for ---

  function Preferred(languages: seq<string>): set<string> {
    set l | l in languages :: Lower(l)
  }

  predicate Wanted(t: AudioTrack, keys: set<string>) {
    keys == {} || t.language == "" || t.language in keys || t.isDefault
  }

  function DispositionOf(t: AudioTrack, d: Decision, p: Preservation): Disposition {
    if d.audioAction == "copy" || (p.copyLossless && t.isLossless) || (p.retainSurround && t.isSurround) then Copied
    else if d.audioAction == "aac_stereo" then AacStereo
    else Copied
  }

  // The audio outputs the file should get.
  function Intended(tracks: seq<AudioTrack>, d: Decision, p: Preservation): seq<AudioOut> {
    if tracks == [] then []
    else
      var t := tracks[0];
      (if Wanted(t, Preferred(p.preferredLanguages)) then [AudioOut(t.index, DispositionOf(t, d, p))] else [])
      + Intended(tracks[1..], d, p)
  }

  lemma {:induction false} IntendedAppend(a: seq<AudioTrack>, b: seq<AudioTrack>, d: Decision, p: Preservation)
    ensures Intended(a + b, d, p) == Intended(a, d, p) + Intended(b, d, p)
  {
    if a == [] {
      assert a + b == b;
    } else {
      assert (a + b)[1..] == a[1..] + b;
      IntendedAppend(a[1..], b, d, p);
    }
  }

  lemma {:induction false} IntendedHasExactly(tracks: seq<AudioTrack>, d: Decision, p: Preservation)
    ensures forall t :: t in tracks && Wanted(t, Preferred(p.preferredLanguages)) ==>
      AudioOut(t.index, DispositionOf(t, d, p)) in Intended(tracks, d, p)
    ensures forall o :: o in Intended(tracks, d, p) ==>
      exists t :: t in tracks && Wanted(t, Preferred(p.preferredLanguages))
                  && o == AudioOut(t.index, DispositionOf(t, d, p))
  {
    if tracks != [] {
      IntendedHasExactly(tracks[1..], d, p);
      assert tracks == [tracks[0]] + tracks[1..];
    }
  }

  // No default, untagged or preferred track is dropped, and no lossless or surround track is
  // re-encoded while its flag is on.
  lemma NothingPreciousIsLost(tracks: seq<AudioTrack>, d: Decision, p: Preservation, t: AudioTrack)
    requires t in tracks
    requires t.isDefault || t.language == "" || exists l :: l in p.preferredLanguages && Lower(l) == t.language
    ensures exists o :: o in Intended(tracks, d, p) && o.source == t.index
                        && ((p.copyLossless && t.isLossless) || (p.retainSurround && t.isSurround) ==> o.disposition.Copied?)
  {
    IntendedHasExactly(tracks, d, p);
    assert Wanted(t, Preferred(p.preferredLanguages));
  }

  // One track by its flags and tag: when it is dropped, and when it is re-encoded.
  lemma OneTrack(t: AudioTrack, d: Decision, p: Preservation)
    ensures var outs := Intended([t], d, p);
            && (outs == [] <==>
                  && p.preferredLanguages != [] && t.language != "" && !t.isDefault
                  && forall l :: l in p.preferredLanguages ==> Lower(l) != t.language)
            && (outs != [] ==>
                  && outs == [AudioOut(t.index, outs[0].disposition)]
                  && (outs[0].disposition.AacStereo? <==>
                        && d.audioAction == "aac_stereo"
                        && !(p.copyLossless && t.isLossless) && !(p.retainSurround && t.isSurround)))
  {
    assert [t][1..] == [];
    var keys := Preferred(p.preferredLanguages);
    if p.preferredLanguages != [] {
      assert Lower(p.preferredLanguages[0]) in keys;
    }
    assert t.language in keys <==> exists l :: l in p.preferredLanguages && Lower(l) == t.language;
  }

  lemma LowerIdempotent(s: string)
    ensures Lower(Lower(s)) == Lower(s)
  {
  }

  // The preferences are lowered but the tag is not: a track whose tag matches one up to case,
  // and that has nothing else going for it, is kept exactly when the tag is in lower case.
  lemma CaseBlindMatchIff(t: AudioTrack, languages: seq<string>)
    requires !t.isDefault && t.language != ""
    requires exists l :: l in languages && Lower(l) == Lower(t.language)
    ensures Wanted(t, Preferred(languages)) <==> Lower(t.language) == t.language
  {
    assert Lower(t.language) in Preferred(languages);
    if t.language in Preferred(languages) {
      var l :| l in languages && Lower(l) == t.language;
      LowerIdempotent(l);
    }
  }

  // The tag "ENG" under the preference "eng".
  lemma UpperCaseTagIsDropped(index: int, d: Decision)
    ensures Intended([AudioTrack(index, "ENG", false, false, false)], d, Preservation(true, ["eng"], true)) == []
  {
    var t := AudioTrack(index, "ENG", false, false, false);
    assert Lower("eng") == "eng" && Lower("ENG") == "eng";
    assert "eng" in ["eng"];
    CaseBlindMatchIff(t, ["eng"]);
    assert Lower("eng") in Preferred(["eng"]);
    assert [t][1..] == [];
  }

  // --- Reading the arguments back ---

  function NumberAfter(prefix: string, s: string): Option<int> {
    if prefix <= s then Decimal.Parse(s[|prefix|..]) else None
  }

  // Stream numbers named by -map options; mappings that name no single stream are passed over.
  function ReadMaps(args: seq<string>): Option<seq<int>> {
    if args == [] then Some([])
    else if |args| == 1 || args[0] != "-map" then None
    else
      match ReadMaps(args[2..])
      case None => None
      case Some(rest) =>
        match NumberAfter("0:", args[1])
        case Some(n) => Some([n] + rest)
        case None => Some(rest)
  }

  function ReadCodecs(args: seq<string>): Option<seq<(int, Disposition)>> {
    if args == [] then Some([])
    else if |args| == 1 then None
    else
      match NumberAfter("-c:a:", args[0])
      case None => None
      case Some(k) =>
        if args[1] == "copy" then Prepend((k, Copied), ReadCodecs(args[2..]))
        else if args[1] == "aac" && |args| >= 6
                && NumberAfter("-b:a:", args[2]) == Some(k) && args[3] == "192k"
                && NumberAfter("-ac:", args[4]) == Some(k) && args[5] == "2"
             then Prepend((k, AacStereo), ReadCodecs(args[6..]))
        else None
  }

  function Prepend<T>(x: T, xs: Option<seq<T>>): Option<seq<T>> {
    if xs.None? then None else Some([x] + xs.value)
  }

  // The audio outputs a plan asks for: the j-th mapped stream with the codec of output j.
  function Decode(plan: Plan): Option<seq<AudioOut>> {
    match ReadMaps(plan.mapArgs)
    case None => None
    case Some(sources) =>
      match ReadCodecs(plan.audioArgs)
      case None => None
      case Some(codecs) =>
        if |codecs| != |sources| || exists j :: 0 <= j < |codecs| && codecs[j].0 != j then None
        else Some(seq(|codecs|, j requires 0 <= j < |codecs| => AudioOut(sources[j], codecs[j].1)))
  }

  lemma NumberRoundTrip(prefix: string, n: int)
    ensures NumberAfter(prefix, prefix + Decimal.Format(n)) == Some(n)
  {
    Decimal.RoundTrip(n);
    assert (prefix + Decimal.Format(n))[|prefix|..] == Decimal.Format(n);
  }

  lemma {:induction false} ReadMapsAppend(a: seq<string>, b: seq<string>)
    requires ReadMaps(a).Some? && ReadMaps(b).Some?
    ensures ReadMaps(a + b) == Some(ReadMaps(a).value + ReadMaps(b).value)
    decreases |a|
  {
    if a == [] {
      assert a + b == b && [] + ReadMaps(b).value == ReadMaps(b).value;
    } else {
      assert (a + b)[2..] == a[2..] + b && (a + b)[0] == a[0] && (a + b)[1] == a[1];
      ReadMapsAppend(a[2..], b);
      var rest, more := ReadMaps(a[2..]).value, ReadMaps(b).value;
      assert forall n :: ([n] + rest) + more == [n] + (rest + more);
    }
  }

  lemma PrependAppend<T>(x: T, xs: seq<T>, ys: seq<T>)
    ensures Prepend(x, Some(xs + ys)) == Some(Prepend(x, Some(xs)).value + ys)
  {
    assert [x] + (xs + ys) == ([x] + xs) + ys;
  }

  lemma {:induction false} ReadCodecsAppend(a: seq<string>, b: seq<string>)
    requires ReadCodecs(a).Some? && ReadCodecs(b).Some?
    ensures ReadCodecs(a + b) == Some(ReadCodecs(a).value + ReadCodecs(b).value)
    decreases |a|
  {
    if a == [] {
      assert a + b == b && [] + ReadCodecs(b).value == ReadCodecs(b).value;
    } else if a[1] == "copy" {
      assert (a + b)[2..] == a[2..] + b && (a + b)[0] == a[0] && (a + b)[1] == a[1];
      ReadCodecsAppend(a[2..], b);
      PrependAppend(ReadCodecs(a).value[0], ReadCodecs(a[2..]).value, ReadCodecs(b).value);
    } else {
      assert (a + b)[6..] == a[6..] + b && forall i :: 0 <= i < 6 ==> (a + b)[i] == a[i];
      ReadCodecsAppend(a[6..], b);
      PrependAppend(ReadCodecs(a).value[0], ReadCodecs(a[6..]).value, ReadCodecs(b).value);
    }
  }

  lemma OneMapping(args: seq<string>, spec: string)
    requires ReadMaps(args).Some?
    ensures ReadMaps(args + ["-map", spec]) ==
            match NumberAfter("0:", spec)
            case Some(n) => Some(ReadMaps(args).value + [n])
            case None => ReadMaps(args)
  {
    var one := ["-map", spec];
    assert one[2..] == [];
    assert forall n: int :: [n] + [] == [n];
    assert ReadMaps(args).value + [] == ReadMaps(args).value;
    ReadMapsAppend(args, one);
  }

  function CodecArgs(k: nat, d: Disposition): seq<string> {
    var n := Decimal.Format(k);
    if d.Copied? then ["-c:a:" + n, "copy"]
    else ["-c:a:" + n, "aac", "-b:a:" + n, "192k", "-ac:" + n, "2"]
  }

  lemma OneCodec(k: nat, d: Disposition)
    ensures ReadCodecs(CodecArgs(k, d)) == Some([(k, d)])
  {
    NumberRoundTrip("-c:a:", k);
    NumberRoundTrip("-b:a:", k);
    NumberRoundTrip("-ac:", k);
    var args := CodecArgs(k, d);
    assert args[if d.Copied? then 2 else 6..] == [];
    assert [(k as int, d)] + [] == [(k as int, d)];
  }

  // --- The builder ---

  function Sources(outs: seq<AudioOut>): seq<int> {
    seq(|outs|, i requires 0 <= i < |outs| => outs[i].source)
  }

  function Numbered(outs: seq<AudioOut>): seq<(int, Disposition)> {
    seq(|outs|, i requires 0 <= i < |outs| => (i, outs[i].disposition))
  }

  // The arguments so far ask for exactly these outputs.
  predicate Reads(mapArgs: seq<string>, audioArgs: seq<string>, outs: seq<AudioOut>) {
    ReadMaps(mapArgs) == Some(Sources(outs)) && ReadCodecs(audioArgs) == Some(Numbered(outs))
  }

  lemma OneMoreSource(mapArgs: seq<string>, outs: seq<AudioOut>, o: AudioOut)
    requires ReadMaps(mapArgs) == Some(Sources(outs))
    ensures ReadMaps(mapArgs + ["-map", "0:" + Decimal.Format(o.source)]) == Some(Sources(outs + [o]))
  {
    NumberRoundTrip("0:", o.source);
    OneMapping(mapArgs, "0:" + Decimal.Format(o.source));
    assert Sources(outs + [o]) == Sources(outs) + [o.source];
  }

  lemma OneMoreCodec(audioArgs: seq<string>, more: seq<string>, outs: seq<AudioOut>, o: AudioOut)
    requires ReadCodecs(audioArgs) == Some(Numbered(outs))
    requires ReadCodecs(more) == Some([(|outs|, o.disposition)])
    ensures ReadCodecs(audioArgs + more) == Some(Numbered(outs + [o]))
  {
    ReadCodecsAppend(audioArgs, more);
    assert Numbered(outs + [o]) == Numbered(outs) + [(|outs|, o.disposition)];
  }

  lemma OneMoreTrack(tracks: seq<AudioTrack>, i: nat, d: Decision, p: Preservation)
    requires i < |tracks|
    ensures var t := tracks[i];
            Intended(tracks[..i + 1], d, p) ==
              if Wanted(t, Preferred(p.preferredLanguages))
              then Intended(tracks[..i], d, p) + [AudioOut(t.index, DispositionOf(t, d, p))]
              else Intended(tracks[..i], d, p)
  {
    var t := tracks[i];
    assert tracks[..i + 1] == tracks[..i] + [t] && [t][1..] == [];
    IntendedAppend(tracks[..i], [t], d, p);
    assert Intended([t], d, p) ==
      if Wanted(t, Preferred(p.preferredLanguages)) then [AudioOut(t.index, DispositionOf(t, d, p))] else [];
  }

  lemma NotAStreamNumber()
    ensures NumberAfter("0:", "0:v:0").None? && NumberAfter("0:", "0:s").None?
    ensures forall n :: NumberAfter("0:", "-0:v:" + Decimal.Format(n)).None?
  {
    assert "0:v:0"[2..] == "v:0" && !Decimal.IsDigit("v:0"[0]);
    assert "0:s"[2..] == "s" && !Decimal.IsDigit("s"[0]);
    forall n
      ensures !("0:" <= "-0:v:" + Decimal.Format(n))
    {
      assert ("-0:v:" + Decimal.Format(n))[0] == '-';
    }
  }

  // The primary video stream, then one exclusion per attached picture.
  function VideoArgs(pics: seq<int>): seq<string>
    decreases |pics|
  {
    if pics == [] then ["-map", "0:v:0"]
    else
      var n := |pics| - 1;
      VideoArgs(pics[..n]) + ["-map", "-0:v:" + Decimal.Format(pics[n])]
  }

  method LoweredSet(languages: seq<string>) returns (keys: set<string>)
    ensures keys == Preferred(languages)
  {
    keys := {};
    for i := 0 to |languages|
      invariant keys == Preferred(languages[..i])
    {
      assert languages[..i + 1] == languages[..i] + [languages[i]];
      keys := keys + {Lower(languages[i])};
    }
    assert languages[..|languages|] == languages;
  }

  method CodecFor(t: AudioTrack, idx: nat, d: Decision, p: Preservation) returns (args: seq<string>)
    ensures ReadCodecs(args) == Some([(idx, DispositionOf(t, d, p))])
  {
    OneCodec(idx, DispositionOf(t, d, p));
    var n := Decimal.Format(idx);
    if d.audioAction == "copy" || (p.copyLossless && t.isLossless) || (p.retainSurround && t.isSurround) {
      args := ["-c:a:" + n, "copy"];
    } else if d.audioAction == "aac_stereo" {
      args := ["-c:a:" + n, "aac", "-b:a:" + n, "192k", "-ac:" + n, "2"];
    } else {
      args := ["-c:a:" + n, "copy"];
    }
  }

  method MapOne(before: seq<string>, t: AudioTrack, ghost outs: seq<AudioOut>, ghost o: AudioOut)
    returns (mapArgs: seq<string>)
    requires ReadMaps(before) == Some(Sources(outs)) && o.source == t.index
    ensures ReadMaps(mapArgs) == Some(Sources(outs + [o]))
    ensures before <= mapArgs && ("0:s" in mapArgs ==> "0:s" in before)
  {
    OneMoreSource(before, outs, o);
    NumberRoundTrip("0:", t.index);
    NotAStreamNumber();
    mapArgs := before + ["-map", "0:" + Decimal.Format(t.index)];
  }

  // The audio part, run once there is at least one audio track.
  method MapAudioTracks(before: seq<string>, tracks: seq<AudioTrack>, d: Decision, p: Preservation)
    returns (mapArgs: seq<string>, audioArgs: seq<string>)
    requires Reads(before, [], []) && "0:s" !in before
    ensures Reads(mapArgs, audioArgs, Intended(tracks, d, p))
    ensures "0:s" !in mapArgs && before <= mapArgs
  {
    var keys := LoweredSet(p.preferredLanguages);
    var audioOutputIdx := 0;
    ghost var outs: seq<AudioOut> := [];
    mapArgs, audioArgs := before, [];
    for i := 0 to |tracks|
      invariant outs == Intended(tracks[..i], d, p) && audioOutputIdx == |outs|
      invariant Reads(mapArgs, audioArgs, outs)
      invariant "0:s" !in mapArgs && before <= mapArgs
    {
      var t := tracks[i];
      OneMoreTrack(tracks, i, d, p);
      if |keys| > 0 && t.language != "" && t.language !in keys && !t.isDefault {
        continue;
      }
      ghost var o := AudioOut(t.index, DispositionOf(t, d, p));
      mapArgs := MapOne(mapArgs, t, outs, o);
      var codecArgs := CodecFor(t, audioOutputIdx, d, p);
      OneMoreCodec(audioArgs, codecArgs, outs, o);
      audioArgs := audioArgs + codecArgs;
      audioOutputIdx := audioOutputIdx + 1;
      outs := outs + [o];
    }
    assert tracks[..|tracks|] == tracks;
  }

  // The plan reads back as exactly the intended outputs; subtitles are mapped and copied when the
  // decision keeps them and there are any.
  method SynthesizeStreamPlan(meta: Metadata, d: Decision, p: Preservation) returns (plan: Plan)
    ensures Decode(plan) == Some(Intended(meta.audioTracks, d, p))
    ensures var subtitled := d.retainSubtitles && meta.subtitleTracks > 0;
            && plan.subtitleArgs == (if subtitled then ["-c:s", "copy"] else [])
            && ("0:s" in plan.mapArgs <==> subtitled)
    ensures VideoArgs(meta.attachedPics) <= plan.mapArgs
  {
    var mapArgs := ["-map", "0:v:0"];
    var audioArgs: seq<string> := [];
    var subArgs: seq<string> := [];
    NotAStreamNumber();
    OneMapping([], "0:v:0");
    assert Sources([]) == [] && Numbered([]) == [];
    assert [] + mapArgs == mapArgs;
    for i := 0 to |meta.attachedPics|
      invariant Reads(mapArgs, [], [])
      invariant "0:s" !in mapArgs && mapArgs == VideoArgs(meta.attachedPics[..i])
    {
      assert meta.attachedPics[..i + 1][..i] == meta.attachedPics[..i];
      var spec := "-0:v:" + Decimal.Format(meta.attachedPics[i]);
      assert spec[0] == '-';
      OneMapping(mapArgs, spec);
      mapArgs := mapArgs + ["-map", spec];
    }
    assert meta.attachedPics[..|meta.attachedPics|] == meta.attachedPics;
    ghost var outs := Intended(meta.audioTracks, d, p);
    if |meta.audioTracks| > 0 {
      mapArgs, audioArgs := MapAudioTracks(mapArgs, meta.audioTracks, d, p);
    }
    if d.retainSubtitles && meta.subtitleTracks > 0 {
      OneMapping(mapArgs, "0:s");
      mapArgs := mapArgs + ["-map", "0:s"];
      subArgs := ["-c:s", "copy"];
    }
    plan := Plan(mapArgs, audioArgs, subArgs);
    DecodesTo(plan, outs);
  }

  lemma DecodesTo(plan: Plan, outs: seq<AudioOut>)
    requires Reads(plan.mapArgs, plan.audioArgs, outs)
    ensures Decode(plan) == Some(outs)
  {
    var sources, codecs := Sources(outs), Numbered(outs);
    assert seq(|codecs|, j requires 0 <= j < |codecs| => AudioOut(sources[j], codecs[j].1)) == outs;
  }
}
