// Which encoder a codec gets on a machine, under a hardware preference.
module Hardware {
  import opened Wrappers
  import opened Sequences

  datatype Profile = Profile(hasNvenc: bool, hasQuickSync: bool, hasAmf: bool, hasVaapi: bool, encoders: set<string>)

  predicate IsHevc(codec: string) { codec == "hevc" || codec == "h265" }

  function FirstOf(p: Profile, names: seq<string>): Option<string> {
    if names == [] then None
    else if names[0] in p.encoders then Some(names[0])
    else FirstOf(p, names[1..])
  }

  function Nvenc(codec: string): seq<string> {
    if IsHevc(codec) then ["hevc_nvenc"]
    else if codec == "h264" || codec == "avc" then ["h264_nvenc"]
    else if codec == "av1" then ["av1_nvenc"]
    else []
  }

  function QuickSync(codec: string): seq<string> {
    if IsHevc(codec) then ["hevc_qsv"]
    else if codec == "h264" || codec == "avc" then ["h264_qsv"]
    else if codec == "av1" then ["av1_qsv"]
    else []
  }

  // Unlike the others, AMF does not know "avc".
  function Amf(codec: string): seq<string> {
    if IsHevc(codec) then ["hevc_amf"]
    else if codec == "h264" then ["h264_amf"]
    else []
  }

  // VAAPI falls back to a lesser hardware codec.
  function Vaapi(codec: string): seq<string> {
    if IsHevc(codec) then ["hevc_vaapi", "h264_vaapi"]
    else if codec == "h264" || codec == "avc" then ["h264_vaapi"]
    else if codec == "av1" then ["av1_vaapi", "hevc_vaapi", "h264_vaapi"]
    else []
  }

  function Software(p: Profile, codec: string): string {
    if IsHevc(codec) then "libx265"
    else if codec == "av1" then (if "libsvtav1" in p.encoders then "libsvtav1" else "libaom-av1")
    else "libx264"
  }

  function SelectEncoder(p: Profile, targetCodec: string, hwAccelPref: string): (string, bool) {
    var codec, pref := Lower(targetCodec), Lower(hwAccelPref);
    var any := pref == "auto";
    var allowed := pref != "cpu" && pref != "none";
    var nvenc := FirstOf(p, Nvenc(codec));
    var qsv := FirstOf(p, QuickSync(codec));
    var amf := FirstOf(p, Amf(codec));
    var vaapi := FirstOf(p, Vaapi(codec));
    if allowed && (any || pref == "nvenc") && p.hasNvenc && nvenc.Some? then (nvenc.value, true)
    else if allowed && (any || pref == "qsv") && p.hasQuickSync && qsv.Some? then (qsv.value, true)
    else if allowed && (any || pref == "amf") && p.hasAmf && amf.Some? then (amf.value, true)
    else if allowed && (any || pref == "vaapi") && p.hasVaapi && vaapi.Some? then (vaapi.value, true)
    else (Software(p, codec), false)
  }

  predicate IsHardware(p: Profile, codec: string, pref: string) {
    SelectEncoder(p, codec, pref).1
  }

  lemma AutoIsLower()
    ensures Lower("auto") == "auto"
  {
  }

  // Whatever preference finds a hardware encoder, "auto" finds one too.
  lemma HardwareUnderAuto(p: Profile, codec: string, pref: string)
    requires IsHardware(p, codec, pref)
    ensures IsHardware(p, codec, "auto")
  {
    AutoIsLower();
  }

  // "auto" finds hardware exactly when asking for one of the four engines by name would.
  lemma AutoIsTheUnion(p: Profile, codec: string)
    ensures IsHardware(p, codec, "auto") <==>
            IsHardware(p, codec, "nvenc") || IsHardware(p, codec, "qsv")
            || IsHardware(p, codec, "amf") || IsHardware(p, codec, "vaapi")
  {
    AutoIsLower();
    assert Lower("nvenc") == "nvenc" && Lower("qsv") == "qsv" && Lower("amf") == "amf" && Lower("vaapi") == "vaapi";
  }

  // The name that comes back tells the truth: a hardware encoder is one the profile lists, for an
  // engine the machine has; a software answer is the codec's software encoder.
  lemma AnswerIsAvailable(p: Profile, codec: string, pref: string)
    ensures var (name, hw) := SelectEncoder(p, codec, pref);
            if hw then name in p.encoders && (p.hasNvenc || p.hasQuickSync || p.hasAmf || p.hasVaapi)
            else name == Software(p, Lower(codec))
  {
    FirstOfIsListed(p, Nvenc(Lower(codec)));
    FirstOfIsListed(p, QuickSync(Lower(codec)));
    FirstOfIsListed(p, Amf(Lower(codec)));
    FirstOfIsListed(p, Vaapi(Lower(codec)));
  }

  lemma {:induction false} FirstOfIsListed(p: Profile, names: seq<string>)
    ensures FirstOf(p, names).Some? ==> FirstOf(p, names).value in p.encoders && FirstOf(p, names).value in names
  {
    if names != [] {
      FirstOfIsListed(p, names[1..]);
    }
  }

  // --- The same as a table ---

  datatype Offer = Offer(engine: string, codecs: set<string>, encoder: string)

  // In the order they are tried.
  const OFFERS: seq<Offer> := [
    Offer("nvenc", {"hevc", "h265"}, "hevc_nvenc"),
    Offer("nvenc", {"h264", "avc"}, "h264_nvenc"),
    Offer("nvenc", {"av1"}, "av1_nvenc"),
    Offer("qsv", {"hevc", "h265"}, "hevc_qsv"),
    Offer("qsv", {"h264", "avc"}, "h264_qsv"),
    Offer("qsv", {"av1"}, "av1_qsv"),
    Offer("amf", {"hevc", "h265"}, "hevc_amf"),
    Offer("amf", {"h264"}, "h264_amf"),
    Offer("vaapi", {"av1"}, "av1_vaapi"),
    Offer("vaapi", {"hevc", "h265", "av1"}, "hevc_vaapi"),
    Offer("vaapi", {"hevc", "h265", "h264", "avc", "av1"}, "h264_vaapi")]

  predicate HasEngine(p: Profile, engine: string) {
    || (engine == "nvenc" && p.hasNvenc)
    || (engine == "qsv" && p.hasQuickSync)
    || (engine == "amf" && p.hasAmf)
    || (engine == "vaapi" && p.hasVaapi)
  }

  predicate Applies(p: Profile, codec: string, pref: string, o: Offer) {
    (pref == "auto" || pref == o.engine) && HasEngine(p, o.engine) && codec in o.codecs && o.encoder in p.encoders
  }

  predicate NoneIn(p: Profile, codec: string, pref: string, offers: seq<Offer>, lo: nat, hi: nat)
    requires hi <= |offers|
  {
    forall j :: lo <= j < hi ==> !Applies(p, codec, pref, offers[j])
  }

  predicate FirstIn(p: Profile, codec: string, pref: string, offers: seq<Offer>, lo: nat, hi: nat, name: string)
    requires hi <= |offers|
  {
    exists k :: lo <= k < hi && Applies(p, codec, pref, offers[k]) && name == offers[k].encoder
                && NoneIn(p, codec, pref, offers, lo, k)
  }

  // The encoder of the first offer from lo to hi that applies.
  function Search(p: Profile, codec: string, pref: string, offers: seq<Offer>, lo: nat, hi: nat): Option<string>
    requires lo <= hi <= |offers|
    decreases hi - lo
  {
    if lo == hi then None
    else if Applies(p, codec, pref, offers[lo]) then Some(offers[lo].encoder)
    else Search(p, codec, pref, offers, lo + 1, hi)
  }

  lemma {:induction false} SearchFinds(p: Profile, codec: string, pref: string, offers: seq<Offer>, lo: nat, hi: nat)
    requires lo <= hi <= |offers|
    ensures match Search(p, codec, pref, offers, lo, hi)
            case Some(name) => FirstIn(p, codec, pref, offers, lo, hi, name)
            case None => NoneIn(p, codec, pref, offers, lo, hi)
    decreases hi - lo
  {
    if lo < hi {
      if Applies(p, codec, pref, offers[lo]) {
        assert NoneIn(p, codec, pref, offers, lo, lo);
      } else {
        SearchFinds(p, codec, pref, offers, lo + 1, hi);
        if name: string :| Search(p, codec, pref, offers, lo + 1, hi) == Some(name) {
          var k :| lo + 1 <= k < hi && Applies(p, codec, pref, offers[k]) && name == offers[k].encoder
                   && NoneIn(p, codec, pref, offers, lo + 1, k);
          assert NoneIn(p, codec, pref, offers, lo, k);
        }
      }
    }
  }

  lemma {:induction false} SearchSplits(p: Profile, codec: string, pref: string, offers: seq<Offer>, lo: nat, mid: nat, hi: nat)
    requires lo <= mid <= hi <= |offers|
    ensures Search(p, codec, pref, offers, lo, hi)
            == if Search(p, codec, pref, offers, lo, mid).Some? then Search(p, codec, pref, offers, lo, mid)
               else Search(p, codec, pref, offers, mid, hi)
    decreases mid - lo
  {
    if lo < mid {
      SearchSplits(p, codec, pref, offers, lo + 1, mid, hi);
    }
  }

  lemma NvencOffers(p: Profile, codec: string, pref: string)
    ensures var on := (pref == "auto" || pref == "nvenc") && p.hasNvenc;
            Search(p, codec, pref, OFFERS, 0, 3) == if on then FirstOf(p, Nvenc(codec)) else None
  {
    var on := (pref == "auto" || pref == "nvenc") && p.hasNvenc;
    assert Applies(p, codec, pref, OFFERS[0]) <==> on && codec in OFFERS[0].codecs && OFFERS[0].encoder in p.encoders;
    assert Applies(p, codec, pref, OFFERS[1]) <==> on && codec in OFFERS[1].codecs && OFFERS[1].encoder in p.encoders;
    assert Applies(p, codec, pref, OFFERS[2]) <==> on && codec in OFFERS[2].codecs && OFFERS[2].encoder in p.encoders;
    assert Search(p, codec, pref, OFFERS, 2, 3) == if Applies(p, codec, pref, OFFERS[2]) then Some(OFFERS[2].encoder)
      else Search(p, codec, pref, OFFERS, 3, 3);
    assert Search(p, codec, pref, OFFERS, 1, 3) == if Applies(p, codec, pref, OFFERS[1]) then Some(OFFERS[1].encoder)
      else Search(p, codec, pref, OFFERS, 2, 3);
    assert Search(p, codec, pref, OFFERS, 0, 3) == if Applies(p, codec, pref, OFFERS[0]) then Some(OFFERS[0].encoder)
      else Search(p, codec, pref, OFFERS, 1, 3);
  }

  lemma QuickSyncOffers(p: Profile, codec: string, pref: string)
    ensures var on := (pref == "auto" || pref == "qsv") && p.hasQuickSync;
            Search(p, codec, pref, OFFERS, 3, 6) == if on then FirstOf(p, QuickSync(codec)) else None
  {
    var on := (pref == "auto" || pref == "qsv") && p.hasQuickSync;
    assert Applies(p, codec, pref, OFFERS[3]) <==> on && codec in OFFERS[3].codecs && OFFERS[3].encoder in p.encoders;
    assert Applies(p, codec, pref, OFFERS[4]) <==> on && codec in OFFERS[4].codecs && OFFERS[4].encoder in p.encoders;
    assert Applies(p, codec, pref, OFFERS[5]) <==> on && codec in OFFERS[5].codecs && OFFERS[5].encoder in p.encoders;
    assert Search(p, codec, pref, OFFERS, 5, 6) == if Applies(p, codec, pref, OFFERS[5]) then Some(OFFERS[5].encoder)
      else Search(p, codec, pref, OFFERS, 6, 6);
    assert Search(p, codec, pref, OFFERS, 4, 6) == if Applies(p, codec, pref, OFFERS[4]) then Some(OFFERS[4].encoder)
      else Search(p, codec, pref, OFFERS, 5, 6);
    assert Search(p, codec, pref, OFFERS, 3, 6) == if Applies(p, codec, pref, OFFERS[3]) then Some(OFFERS[3].encoder)
      else Search(p, codec, pref, OFFERS, 4, 6);
  }

  lemma AmfOffers(p: Profile, codec: string, pref: string)
    ensures var on := (pref == "auto" || pref == "amf") && p.hasAmf;
            Search(p, codec, pref, OFFERS, 6, 8) == if on then FirstOf(p, Amf(codec)) else None
  {
    var on := (pref == "auto" || pref == "amf") && p.hasAmf;
    assert Applies(p, codec, pref, OFFERS[6]) <==> on && codec in OFFERS[6].codecs && OFFERS[6].encoder in p.encoders;
    assert Applies(p, codec, pref, OFFERS[7]) <==> on && codec in OFFERS[7].codecs && OFFERS[7].encoder in p.encoders;
    assert Search(p, codec, pref, OFFERS, 7, 8) == if Applies(p, codec, pref, OFFERS[7]) then Some(OFFERS[7].encoder)
      else Search(p, codec, pref, OFFERS, 8, 8);
    assert Search(p, codec, pref, OFFERS, 6, 8) == if Applies(p, codec, pref, OFFERS[6]) then Some(OFFERS[6].encoder)
      else Search(p, codec, pref, OFFERS, 7, 8);
  }

  lemma VaapiOffers(p: Profile, codec: string, pref: string)
    ensures var on := (pref == "auto" || pref == "vaapi") && p.hasVaapi;
            Search(p, codec, pref, OFFERS, 8, 11) == if on then FirstOf(p, Vaapi(codec)) else None
  {
    var on := (pref == "auto" || pref == "vaapi") && p.hasVaapi;
    assert Applies(p, codec, pref, OFFERS[8]) <==> on && codec in OFFERS[8].codecs && OFFERS[8].encoder in p.encoders;
    assert Applies(p, codec, pref, OFFERS[9]) <==> on && codec in OFFERS[9].codecs && OFFERS[9].encoder in p.encoders;
    assert Applies(p, codec, pref, OFFERS[10]) <==> on && codec in OFFERS[10].codecs && OFFERS[10].encoder in p.encoders;
    assert Search(p, codec, pref, OFFERS, 10, 11) == if Applies(p, codec, pref, OFFERS[10]) then Some(OFFERS[10].encoder)
      else Search(p, codec, pref, OFFERS, 11, 11);
    assert Search(p, codec, pref, OFFERS, 9, 11) == if Applies(p, codec, pref, OFFERS[9]) then Some(OFFERS[9].encoder)
      else Search(p, codec, pref, OFFERS, 10, 11);
    assert Search(p, codec, pref, OFFERS, 8, 11) == if Applies(p, codec, pref, OFFERS[8]) then Some(OFFERS[8].encoder)
      else Search(p, codec, pref, OFFERS, 9, 11);
    var names := Vaapi(codec);
    if |names| > 1 {
      assert names[1..][0] == names[1] && names[1..][1..] == names[2..];
      assert FirstOf(p, names[1..]) == if names[1] in p.encoders then Some(names[1]) else FirstOf(p, names[2..]);
    }
    if |names| > 2 {
      assert names[2..] == [names[2]] && FirstOf(p, []).None? && [names[2]][1..] == [];
      assert FirstOf(p, names[2..]) == if names[2] in p.encoders then Some(names[2]) else None;
    }
  }

  lemma SelectSearches(p: Profile, codec: string, pref: string)
    ensures SelectEncoder(p, codec, pref)
            == match Search(p, Lower(codec), Lower(pref), OFFERS, 0, 11)
               case Some(name) => (name, true)
               case None => (Software(p, Lower(codec)), false)
  {
    var c, q := Lower(codec), Lower(pref);
    NvencOffers(p, c, q);
    QuickSyncOffers(p, c, q);
    AmfOffers(p, c, q);
    VaapiOffers(p, c, q);
    SearchSplits(p, c, q, OFFERS, 0, 3, 11);
    SearchSplits(p, c, q, OFFERS, 3, 6, 11);
    SearchSplits(p, c, q, OFFERS, 6, 8, 11);
  }

  // The answer is the first offer of the table that applies, under the lowered names, and the
  // codec's software encoder exactly when none does.
  lemma FirstOfferWins(p: Profile, codec: string, pref: string)
    ensures var (name, hw) := SelectEncoder(p, codec, pref);
            if hw then
              FirstIn(p, Lower(codec), Lower(pref), OFFERS, 0, |OFFERS|, name)
            else
              && NoneIn(p, Lower(codec), Lower(pref), OFFERS, 0, |OFFERS|)
              && name == (if Lower(codec) in {"hevc", "h265"} then "libx265"
                          else if Lower(codec) != "av1" then "libx264"
                          else if "libsvtav1" in p.encoders then "libsvtav1" else "libaom-av1")
  {
    SelectSearches(p, codec, pref);
    assert |OFFERS| == 11;
    SearchFinds(p, Lower(codec), Lower(pref), OFFERS, 0, |OFFERS|);
  }
}
