// Encodes under two permits: the pool takes a GPU or a CPU permit by what "auto" would pick,
// while the encode itself uses the configured preference.
module Permits {
  import opened Wrappers
  import opened Sequences
  import opened Semaphore
  import opened Hardware
  import Rules

  datatype Preset = Preset(name: string, codec: string)

  // `kinds` are the kinds of files that may be there to transcode, any number of each.
  datatype Machine = Machine(
    profile: Profile, pref: string, rules: Rules.Engine, kinds: set<Rules.Metadata>, presets: seq<Preset>,
    workerCount: int, gpuLimit: int, cpuLimit: int)

  const DEFAULT_WORKERS: nat := 4

  function Workers(m: Machine): (n: nat)
    ensures n >= 1
  {
    if m.workerCount <= 0 then DEFAULT_WORKERS else m.workerCount
  }

  function FindPreset(presets: seq<Preset>, name: string): Option<Preset> {
    if presets == [] then None
    else if Lower(presets[0].name) == Lower(name) then Some(presets[0])
    else FindPreset(presets[1..], name)
  }

  // The codec of the preset a decision names: the first of that name, or else the first preset,
  // or else the built-in one.
  function SelectCodec(presets: seq<Preset>, name: string): string {
    match FindPreset(presets, name)
    case Some(preset) => preset.codec
    case None => if presets != [] then presets[0].codec else "hevc"
  }

  // Some file is encoded to this codec: the rules give it a preset that stands for it.
  ghost predicate Offered(m: Machine, codec: string) {
    exists name :: Rules.Decides(m.rules, m.kinds, name) && SelectCodec(m.presets, name) == codec
  }

  // jobs: the codec each worker is encoding to, from the choice of permit to its release.
  datatype Pool = Pool(gpu: Sem, cpu: Sem, jobs: map<Thread, string>)

  datatype PoolStep =
    | StartJob(t: Thread, preset: string)
    | PermitStep(step: Step)
    | EndJob(t: Thread)

  function Start(m: Machine): Pool {
    Pool(NewSemaphore(m.gpuLimit), NewSemaphore(m.cpuLimit), map[])
  }

  predicate TakesGpu(m: Machine, codec: string) {
    IsHardware(m.profile, codec, "auto")
  }

  predicate OnGpu(m: Machine, p: Pool, t: Thread) {
    t in p.jobs && TakesGpu(m, p.jobs[t])
  }

  // Workers are numbered from 0 and have one job at a time, with a preset the rules decide on.
  // Acquire, then a deferred Release: a worker steps only its own semaphore, and never releases
  // what it does not hold.
  ghost predicate PoolEnabled(m: Machine, p: Pool, s: PoolStep) {
    match s
    case StartJob(t, preset) => t < Workers(m) && t !in p.jobs && Rules.Decides(m.rules, m.kinds, preset)
    case PermitStep(step) =>
      step.t in p.jobs && Disciplined(if OnGpu(m, p, step.t) then p.gpu else p.cpu, step)
    case EndJob(t) => t in p.jobs && PlaceOf(p.gpu, t) == Outside && PlaceOf(p.cpu, t) == Outside
  }

  function PoolNext(m: Machine, p: Pool, s: PoolStep): Pool {
    match s
    case StartJob(t, preset) => p.(jobs := p.jobs[t := SelectCodec(m.presets, preset)])
    case PermitStep(step) =>
      if OnGpu(m, p, step.t) then p.(gpu := Next(p.gpu, step)) else p.(cpu := Next(p.cpu, step))
    case EndJob(t) => p.(jobs := p.jobs - {t})
  }

  ghost predicate PoolRun(m: Machine, p: Pool, ss: seq<PoolStep>)
    decreases |ss|
  {
    ss == [] || (PoolEnabled(m, p, ss[0]) && PoolRun(m, PoolNext(m, p, ss[0]), ss[1..]))
  }

  function PoolAfter(m: Machine, p: Pool, ss: seq<PoolStep>): Pool
    decreases |ss|
  {
    if ss == [] then p else PoolAfter(m, PoolNext(m, p, ss[0]), ss[1..])
  }

  // --- Who is encoding ---

  // A job is inside Execute while its thread holds the permit it asked for.
  predicate Inside(m: Machine, p: Pool, t: Thread) {
    t in p.jobs && PlaceOf(if OnGpu(m, p, t) then p.gpu else p.cpu, t) == Holding
  }

  function Encoding(m: Machine, p: Pool): set<Thread> {
    set t | t in p.jobs && Inside(m, p, t)
  }

  function HardwareEncodes(m: Machine, p: Pool): set<Thread> {
    set t | t in Encoding(m, p) && t in p.jobs && IsHardware(m.profile, p.jobs[t], m.pref)
  }

  function SoftwareEncodes(m: Machine, p: Pool): set<Thread> {
    Encoding(m, p) - HardwareEncodes(m, p)
  }

  // Software encodes that sit on a GPU permit, because "auto" would have used the GPU.
  function Misplaced(m: Machine, p: Pool): set<Thread> {
    set t | t in SoftwareEncodes(m, p) && OnGpu(m, p, t)
  }

  ghost predicate PoolInv(m: Machine, p: Pool) {
    Semaphore.Inv(p.gpu) && Semaphore.Inv(p.cpu)
    && p.gpu.limit == EffectiveLimit(m.gpuLimit) && p.cpu.limit == EffectiveLimit(m.cpuLimit)
    && forall t: Thread :: t in p.jobs ==> t < Workers(m) && Offered(m, p.jobs[t])
  }

  lemma {:induction false} RunKeepsPoolInv(m: Machine, p: Pool, ss: seq<PoolStep>)
    requires PoolInv(m, p) && PoolRun(m, p, ss)
    ensures PoolInv(m, PoolAfter(m, p, ss))
    decreases |ss|
  {
    if ss != [] {
      var s := ss[0];
      if s.StartJob? {
        assert Offered(m, SelectCodec(m.presets, s.preset));
      } else if s.PermitStep? {
        StepKeepsInvIff(if OnGpu(m, p, s.step.t) then p.gpu else p.cpu, s.step);
      }
      RunKeepsPoolInv(m, PoolNext(m, p, s), ss[1..]);
    }
  }

  lemma StartKeepsPoolInv(m: Machine)
    ensures PoolInv(m, Start(m))
  {
    var s := Start(m);
    assert At(s.gpu, Entering) == {} && At(s.gpu, Holding) == {} && At(s.gpu, Leaving) == {};
    assert At(s.cpu, Entering) == {} && At(s.cpu, Holding) == {} && At(s.cpu, Leaving) == {};
  }

  lemma SizeOfSubset(a: set<Thread>, b: set<Thread>)
    requires a <= b
    ensures |a| <= |b|
  {
    assert b == a + (b - a);
  }

  lemma SizeOfUnion(a: set<Thread>, b: set<Thread>)
    ensures |a + b| <= |a| + |b|
  {
    assert a + b == a + (b - a);
    SizeOfSubset(b - a, b);
  }

  // In every reachable state: hardware encodes stay within the GPU limit, and all encodes within
  // the two limits together.
  lemma EncodesAreBounded(m: Machine, ss: seq<PoolStep>)
    requires PoolRun(m, Start(m), ss)
    ensures var p := PoolAfter(m, Start(m), ss);
            && |HardwareEncodes(m, p)| <= EffectiveLimit(m.gpuLimit)
            && |Encoding(m, p)| <= EffectiveLimit(m.gpuLimit) + EffectiveLimit(m.cpuLimit)
            && |SoftwareEncodes(m, p)| <= EffectiveLimit(m.cpuLimit) + |Misplaced(m, p)|
  {
    StartKeepsPoolInv(m);
    RunKeepsPoolInv(m, Start(m), ss);
    var p := PoolAfter(m, Start(m), ss);
    var gpu, cpu := At(p.gpu, Holding), At(p.cpu, Holding);
    forall t | t in HardwareEncodes(m, p)
      ensures t in gpu
    {
      HardwareUnderAuto(m.profile, p.jobs[t], m.pref);
    }
    SizeOfSubset(HardwareEncodes(m, p), gpu);
    SizeOfSubset(Encoding(m, p), gpu + cpu);
    SizeOfUnion(gpu, cpu);
    SizeOfSubset(SoftwareEncodes(m, p), cpu + Misplaced(m, p));
    SizeOfUnion(cpu, Misplaced(m, p));
  }

  // --- When the CPU limit bounds the software encodes ---

  // Some codec in use goes to the GPU under "auto" and to software under the preference.
  ghost predicate LosesHardware(m: Machine) {
    exists codec :: Offered(m, codec) && TakesGpu(m, codec) && !IsHardware(m.profile, codec, m.pref)
  }

  ghost predicate OffersSoftware(m: Machine) {
    exists codec :: Offered(m, codec) && !TakesGpu(m, codec)
  }

  ghost predicate CpuLimitBounds(m: Machine) {
    forall ss :: PoolRun(m, Start(m), ss) ==>
      |SoftwareEncodes(m, PoolAfter(m, Start(m), ss))| <= EffectiveLimit(m.cpuLimit)
  }

  function Below(n: nat): (s: set<Thread>)
    ensures forall t: Thread :: t in s <==> t < n
    ensures |s| == n
  {
    if n == 0 then {} else Below(n - 1) + {n - 1}
  }

  lemma FewWorkersStayWithin(m: Machine, ss: seq<PoolStep>)
    requires PoolRun(m, Start(m), ss) && Workers(m) <= EffectiveLimit(m.cpuLimit)
    ensures |SoftwareEncodes(m, PoolAfter(m, Start(m), ss))| <= EffectiveLimit(m.cpuLimit)
  {
    StartKeepsPoolInv(m);
    RunKeepsPoolInv(m, Start(m), ss);
    SizeOfSubset(SoftwareEncodes(m, PoolAfter(m, Start(m), ss)), Below(Workers(m)));
  }

  lemma NothingLostStaysWithin(m: Machine, ss: seq<PoolStep>)
    requires PoolRun(m, Start(m), ss) && !LosesHardware(m)
    ensures |SoftwareEncodes(m, PoolAfter(m, Start(m), ss))| <= EffectiveLimit(m.cpuLimit)
  {
    StartKeepsPoolInv(m);
    RunKeepsPoolInv(m, Start(m), ss);
    EncodesAreBounded(m, ss);
    var p := PoolAfter(m, Start(m), ss);
    forall t | t in Encoding(m, p) && OnGpu(m, p, t)
      ensures t in HardwareEncodes(m, p)
    {
      assert Offered(m, p.jobs[t]);
    }
    assert Misplaced(m, p) == {};
  }

  lemma GpuPermitsStayWithin(m: Machine, ss: seq<PoolStep>)
    requires PoolRun(m, Start(m), ss) && !OffersSoftware(m)
    requires EffectiveLimit(m.gpuLimit) <= EffectiveLimit(m.cpuLimit)
    ensures |SoftwareEncodes(m, PoolAfter(m, Start(m), ss))| <= EffectiveLimit(m.cpuLimit)
  {
    StartKeepsPoolInv(m);
    RunKeepsPoolInv(m, Start(m), ss);
    var p := PoolAfter(m, Start(m), ss);
    forall t | t in SoftwareEncodes(m, p)
      ensures t in At(p.gpu, Holding)
    {
      assert Offered(m, p.jobs[t]);
    }
    SizeOfSubset(SoftwareEncodes(m, p), At(p.gpu, Holding));
  }

  // --- Filling a pool with software encodes ---

  function AcquireSteps(t: Thread, preset: string): seq<PoolStep> {
    [StartJob(t, preset), PermitStep(Send(t)), PermitStep(AddOne(t))]
  }

  // The pool with one more job inside Execute.
  function Entered(m: Machine, p: Pool, t: Thread, codec: string): Pool {
    var q := p.(jobs := p.jobs[t := codec]);
    if TakesGpu(m, codec) then q.(gpu := Next(Next(p.gpu, Send(t)), AddOne(t)))
    else q.(cpu := Next(Next(p.cpu, Send(t)), AddOne(t)))
  }

  lemma OneStep(m: Machine, p: Pool, s: PoolStep)
    ensures PoolRun(m, p, [s]) <==> PoolEnabled(m, p, s)
    ensures PoolAfter(m, p, [s]) == PoolNext(m, p, s)
  {
    var next := PoolNext(m, p, s);
    assert [s][0] == s && [s][1..] == [];
    assert PoolAfter(m, next, []) == next && PoolRun(m, next, []);
  }

  // Three steps put a job inside Execute, when its semaphore has a free slot.
  lemma JobEnters(m: Machine, p: Pool, t: Thread, preset: string)
    requires Rules.Decides(m.rules, m.kinds, preset)
    requires t < Workers(m) && t !in p.jobs && PlaceOf(p.gpu, t) == Outside && PlaceOf(p.cpu, t) == Outside
    requires var s := if TakesGpu(m, SelectCodec(m.presets, preset)) then p.gpu else p.cpu; s.slots < s.limit
    ensures PoolRun(m, p, AcquireSteps(t, preset))
    ensures PoolAfter(m, p, AcquireSteps(t, preset)) == Entered(m, p, t, SelectCodec(m.presets, preset))
  {
    var a, b, c := StartJob(t, preset), PermitStep(Send(t)), PermitStep(AddOne(t));
    var p1 := PoolNext(m, p, a);
    var p2 := PoolNext(m, p1, b);
    OneStep(m, p2, c);
    assert [b, c][0] == b && [b, c][1..] == [c];
    assert AcquireSteps(t, preset)[0] == a && AcquireSteps(t, preset)[1..] == [b, c];
    assert PoolRun(m, p1, [b, c]) && PoolAfter(m, p1, [b, c]) == PoolNext(m, p2, c);
  }

  lemma {:induction false} RunsConcatenate(m: Machine, p: Pool, a: seq<PoolStep>, b: seq<PoolStep>)
    requires PoolRun(m, p, a) && PoolRun(m, PoolAfter(m, p, a), b)
    ensures PoolRun(m, p, a + b) && PoolAfter(m, p, a + b) == PoolAfter(m, PoolAfter(m, p, a), b)
    decreases |a|
  {
    if a == [] {
      assert a + b == b;
    } else {
      assert (a + b)[0] == a[0] && (a + b)[1..] == a[1..] + b;
      RunsConcatenate(m, PoolNext(m, p, a[0]), a[1..], b);
    }
  }

  // Workers 0 to k - 1 are inside Execute, in software; those on GPU permits number g.
  ghost predicate Filled(m: Machine, p: Pool, g: nat, k: nat) {
    && g <= k && p.gpu.slots == g && p.cpu.slots == k - g
    && p.gpu.limit == EffectiveLimit(m.gpuLimit) && p.cpu.limit == EffectiveLimit(m.cpuLimit)
    && (forall t: Thread :: t in p.jobs <==> t < k)
    && (forall t: Thread :: t < k ==> Inside(m, p, t) && !IsHardware(m.profile, p.jobs[t], m.pref))
    && (forall t: Thread :: k <= t ==> PlaceOf(p.gpu, t) == Outside && PlaceOf(p.cpu, t) == Outside)
  }

  lemma OneMoreIsFilled(m: Machine, p: Pool, g: nat, k: nat, codec: string)
    requires Filled(m, p, g, k) && !IsHardware(m.profile, codec, m.pref)
    ensures Filled(m, Entered(m, p, k, codec), if TakesGpu(m, codec) then g + 1 else g, k + 1)
  {
    var q := Entered(m, p, k, codec);
    forall t: Thread
      ensures t != k ==> PlaceOf(q.gpu, t) == PlaceOf(p.gpu, t) && PlaceOf(q.cpu, t) == PlaceOf(p.cpu, t)
      ensures t in q.jobs <==> t < k + 1
      ensures t < k + 1 ==> Inside(m, q, t) && !IsHardware(m.profile, q.jobs[t], m.pref)
    {
      if t < k {
        assert Inside(m, p, t);
      }
    }
  }

  // n more workers start jobs of one preset that is encoded in software, while permits last.
  lemma {:induction false} Fill(m: Machine, p: Pool, g: nat, k: nat, preset: string, n: nat)
    returns (ss: seq<PoolStep>)
    requires Filled(m, p, g, k) && k + n <= Workers(m) && Rules.Decides(m.rules, m.kinds, preset)
    requires !IsHardware(m.profile, SelectCodec(m.presets, preset), m.pref)
    requires TakesGpu(m, SelectCodec(m.presets, preset)) ==> g + n <= EffectiveLimit(m.gpuLimit)
    requires !TakesGpu(m, SelectCodec(m.presets, preset)) ==> k - g + n <= EffectiveLimit(m.cpuLimit)
    ensures PoolRun(m, p, ss)
    ensures Filled(m, PoolAfter(m, p, ss),
                   if TakesGpu(m, SelectCodec(m.presets, preset)) then g + n else g, k + n)
    decreases n
  {
    if n == 0 {
      ss := [];
    } else {
      var codec := SelectCodec(m.presets, preset);
      var q := Entered(m, p, k, codec);
      JobEnters(m, p, k, preset);
      OneMoreIsFilled(m, p, g, k, codec);
      var more := Fill(m, q, if TakesGpu(m, codec) then g + 1 else g, k + 1, preset, n - 1);
      RunsConcatenate(m, p, AcquireSteps(k, preset), more);
      ss := AcquireSteps(k, preset) + more;
    }
  }

  lemma FilledCounts(m: Machine, p: Pool, g: nat, k: nat)
    requires Filled(m, p, g, k)
    ensures |SoftwareEncodes(m, p)| == k
  {
    forall t: Thread
      ensures t in SoftwareEncodes(m, p) <==> t in Below(k)
    {
      if t < k {
        assert Inside(m, p, t);
      }
    }
    assert SoftwareEncodes(m, p) == Below(k);
  }

  // Nobody has started: the empty pool is filled with no one.
  lemma StartIsFilled(m: Machine)
    ensures Filled(m, Start(m), 0, 0)
  {
  }

  // A preset in use whose hardware the preference loses, workers to spare, and either a preset for the
  // CPU or GPU permits to spare: then one software encode more than the CPU limit can run.
  lemma CpuLimitFails(m: Machine) returns (ss: seq<PoolStep>)
    requires LosesHardware(m) && Workers(m) > EffectiveLimit(m.cpuLimit)
    requires OffersSoftware(m) || EffectiveLimit(m.gpuLimit) > EffectiveLimit(m.cpuLimit)
    ensures PoolRun(m, Start(m), ss)
    ensures |SoftwareEncodes(m, PoolAfter(m, Start(m), ss))| > EffectiveLimit(m.cpuLimit)
  {
    var limit := EffectiveLimit(m.cpuLimit);
    var lost :| Offered(m, lost) && TakesGpu(m, lost) && !IsHardware(m.profile, lost, m.pref);
    var preset :| Rules.Decides(m.rules, m.kinds, preset) && SelectCodec(m.presets, preset) == lost;
    StartIsFilled(m);
    if OffersSoftware(m) {
      var soft :| Offered(m, soft) && !TakesGpu(m, soft);
      var other :| Rules.Decides(m.rules, m.kinds, other) && SelectCodec(m.presets, other) == soft;
      if IsHardware(m.profile, soft, m.pref) {
        HardwareUnderAuto(m.profile, soft, m.pref);
      }
      var first := Fill(m, Start(m), 0, 0, preset, 1);
      var p := PoolAfter(m, Start(m), first);
      var rest := Fill(m, p, 1, 1, other, limit);
      RunsConcatenate(m, Start(m), first, rest);
      ss := first + rest;
      FilledCounts(m, PoolAfter(m, Start(m), ss), 1, limit + 1);
    } else {
      ss := Fill(m, Start(m), 0, 0, preset, limit + 1);
      FilledCounts(m, PoolAfter(m, Start(m), ss), limit + 1, limit + 1);
    }
  }

  // The CPU limit bounds the software encodes exactly when no preset the rules decide on loses
  // hardware, or there are no more workers than CPU permits, or every such preset's permit is a
  // GPU one and those are no more either.
  lemma CpuLimitBoundsIff(m: Machine)
    ensures CpuLimitBounds(m) <==>
            || !LosesHardware(m)
            || Workers(m) <= EffectiveLimit(m.cpuLimit)
            || (!OffersSoftware(m) && EffectiveLimit(m.gpuLimit) <= EffectiveLimit(m.cpuLimit))
  {
    if LosesHardware(m) && Workers(m) > EffectiveLimit(m.cpuLimit)
       && (OffersSoftware(m) || EffectiveLimit(m.gpuLimit) > EffectiveLimit(m.cpuLimit)) {
      var ss := CpuLimitFails(m);
    } else {
      forall ss | PoolRun(m, Start(m), ss)
        ensures |SoftwareEncodes(m, PoolAfter(m, Start(m), ss))| <= EffectiveLimit(m.cpuLimit)
      {
        if Workers(m) <= EffectiveLimit(m.cpuLimit) {
          FewWorkersStayWithin(m, ss);
        } else if !LosesHardware(m) {
          NothingLostStaysWithin(m, ss);
        } else {
          GpuPermitsStayWithin(m, ss);
        }
      }
    }
  }

  // --- A machine with an NVENC card whose preference is "cpu" ---

  const SHIPPED_PRESETS: seq<Preset> := [Preset("balanced-hevc", "hevc"), Preset("efficient-av1", "av1")]

  function NvencMachine(rules: Rules.Engine, kinds: set<Rules.Metadata>, workers: int): Machine {
    Machine(Profile(true, false, false, false, {"hevc_nvenc"}), "cpu", rules, kinds, SHIPPED_PRESETS, workers, 2, 4)
  }

  lemma ShippedCodecs()
    ensures SelectCodec(SHIPPED_PRESETS, "balanced-hevc") == "hevc"
    ensures SelectCodec(SHIPPED_PRESETS, "efficient-av1") == "av1"
  {
    assert Lower("balanced-hevc")[0] == 'b' && Lower("efficient-av1")[0] == 'e';
    assert SHIPPED_PRESETS[1..] == [Preset("efficient-av1", "av1")];
  }

  lemma NvencChoices(p: Profile)
    requires p == Profile(true, false, false, false, {"hevc_nvenc"})
    ensures IsHardware(p, "hevc", "auto") && !IsHardware(p, "hevc", "cpu") && !IsHardware(p, "av1", "auto")
  {
    assert Lower("auto") == "auto" && Lower("cpu") == "cpu" && Lower("hevc") == "hevc" && Lower("av1") == "av1";
  }

  // With the shipped rules every encode takes one of two GPU permits, and the CPU limit of four
  // holds for any number of workers and any files.
  lemma NvencMachineWithin(kinds: set<Rules.Metadata>, workers: int)
    ensures CpuLimitBounds(NvencMachine(Rules.SHIPPED, kinds, workers))
  {
    var m := NvencMachine(Rules.SHIPPED, kinds, workers);
    ShippedCodecs();
    NvencChoices(m.profile);
    forall codec | Offered(m, codec)
      ensures TakesGpu(m, codec)
    {
      var name :| Rules.Decides(m.rules, m.kinds, name) && SelectCodec(m.presets, name) == codec;
      Rules.ShippedDecides(kinds, name);
    }
    CpuLimitBoundsIff(m);
  }

  lemma UsesBoth(m: Machine, lost: string, soft: string)
    requires Rules.Decides(m.rules, m.kinds, lost) && Rules.Decides(m.rules, m.kinds, soft)
    requires TakesGpu(m, SelectCodec(m.presets, lost)) && !IsHardware(m.profile, SelectCodec(m.presets, lost), m.pref)
    requires !TakesGpu(m, SelectCodec(m.presets, soft))
    ensures LosesHardware(m) && OffersSoftware(m)
  {
    assert Offered(m, SelectCodec(m.presets, lost)) && Offered(m, SelectCodec(m.presets, soft));
  }

  // Once the rules also decide on the AV1 preset it holds up to four workers, the shipped number,
  // and not with five.
  lemma NvencMachineWithAv1(workers: int)
    ensures CpuLimitBounds(NvencMachine(Rules.WITH_AV1, {Rules.H264, Rules.VP9}, workers)) <==> workers <= 4
  {
    var m := NvencMachine(Rules.WITH_AV1, {Rules.H264, Rules.VP9}, workers);
    assert LosesHardware(m) && OffersSoftware(m) by {
      ShippedCodecs();
      NvencChoices(m.profile);
      Rules.WithAv1DecidesBoth();
      UsesBoth(m, "balanced-hevc", "efficient-av1");
    }
    CpuLimitBoundsIff(m);
  }
}
