/** Lifetime of the echo reference that a capture and a playback stream share (audio/audio_hw.c). */
module EchoReference {
  /** A reference by its serial number; 0 is the null pointer. */
  type Ref = nat

  const NULL: Ref := 0

  /** The audio device with its one output and one input stream.  `created` numbers the references
      made so far, and `released` lists those released, in order. */
  datatype Device = Device(echo: Ref, outEcho: Ref, inEcho: Ref, outActive: bool, inActive: bool,
                           outStandby: bool, inStandby: bool, needEcho: bool, created: nat, released: seq<Ref>)

  /** What the streams are asked to do; flags say whether the driver and the library go along. */
  datatype Event =
    | StartOutput(pcmOk: bool)
    | WriteEcho
    | OutputStandby
    | StartInput(pcmOk: bool, createOk: bool)
    | ReadEcho
    | InputStandby
    | NeedEcho(need: bool)

  /** `put_echo_reference`: only the device's own reference is released, after the output let go of it. */
  function Put(d: Device, ref: Ref): Device {
    if d.echo != NULL && ref == d.echo then
      d.(outEcho := if d.outActive && d.outEcho == ref then NULL else d.outEcho,
         released := d.released + [ref], echo := NULL)
    else d
  }

  /** `get_echo_reference`: replaces any earlier reference; there is none without an active output. */
  function Get(d: Device, createOk: bool): Device {
    var d' := Put(d, d.echo);
    if d'.outActive && createOk
    then d'.(created := d'.created + 1, echo := d'.created + 1, outEcho := d'.created + 1)
    else d'
  }

  function Apply(d: Device, e: Event): Device {
    match e
    case StartOutput(pcmOk) =>
      if !d.outStandby then d
      else if !pcmOk then d.(outActive := false)
      else d.(outActive := true, outStandby := false, outEcho := if d.echo != NULL then d.echo else d.outEcho)
    case OutputStandby =>
      if d.outStandby then d else d.(outActive := false, outEcho := NULL, outStandby := true)
    case StartInput(pcmOk, createOk) =>
      if !d.inStandby then d
      else
        var d1 := if d.needEcho && d.inEcho == NULL then Get(d, createOk) else d;
        var d2 := if d.needEcho && d.inEcho == NULL then d1.(inEcho := d1.echo) else d1;
        if pcmOk then d2.(inActive := true, inStandby := false) else d2.(inActive := false)
    case InputStandby =>
      if d.inStandby then d
      else (if d.inEcho != NULL then Put(d, d.inEcho).(inEcho := NULL) else d).(inActive := false, inStandby := true)
    case NeedEcho(need) => d.(needEcho := need)
    case WriteEcho | ReadEcho => d
  }

  /** The references an event reads from or writes to. */
  function Used(d: Device, e: Event): set<Ref> {
    match e
    case WriteEcho => {d.outEcho} - {NULL}
    case ReadEcho => {d.inEcho} - {NULL}
    case OutputStandby => if d.outStandby then {} else {d.outEcho} - {NULL}
    case InputStandby => if d.inStandby then {} else {d.inEcho, d.outEcho} - {NULL}
    case StartInput(_, _) => if d.inStandby && d.needEcho && d.inEcho == NULL then {d.outEcho} - {NULL} else {}
    case StartOutput(_) | NeedEcho(_) => {}
  }

  ghost predicate Distinct(s: seq<Ref>) { forall i, j :: 0 <= i < j < |s| ==> s[i] != s[j] }

  /** The input holds the device's reference; so does the output, exactly while it is active.  Every
      other reference ever created has been released, once. */
  ghost predicate Inv(d: Device) {
    && d.inEcho == d.echo
    && d.outEcho == (if d.outActive then d.echo else NULL)
    && d.outActive == !d.outStandby && d.inActive == !d.inStandby
    && d.echo <= d.created
    && Distinct(d.released)
    && forall r: Ref :: r in d.released <==> 0 < r <= d.created && r != d.echo
  }

  ghost predicate Initial(d: Device) {
    && d.echo == d.outEcho == d.inEcho == NULL && !d.outActive && !d.inActive && d.outStandby && d.inStandby
    && d.created == 0 && d.released == []
  }

  lemma PutKeeps(d: Device)
    requires Inv(d)
    ensures var d' := Put(d, d.echo).(inEcho := NULL); Inv(d') && d'.echo == NULL && d'.outEcho == NULL
  {
    var d' := Put(d, d.echo);
    if d.echo != NULL {
      assert forall r: Ref :: r in d'.released <==> r in d.released || r == d.echo;
      forall i | 0 <= i < |d.released| ensures d.released[i] != d.echo {
        assert d.released[i] in d.released;
      }
    }
  }

  lemma GetKeeps(d: Device, createOk: bool)
    requires Inv(d)
    ensures var d' := Get(d, createOk); Inv(d'.(inEcho := d'.echo))
  {
    PutKeeps(d);
  }

  /** Every event keeps the invariant, and touches only references that are still alive. */
  lemma StepKeeps(d: Device, e: Event)
    requires Inv(d)
    ensures Inv(Apply(d, e))
    ensures forall r :: r in Used(d, e) ==> r !in d.released && r != NULL
  {
    match e
    case StartInput(_, createOk) => GetKeeps(d, createOk);
    case InputStandby => PutKeeps(d);
    case _ =>
  }

  /** What each event does to the device's reference, to the two streams and to what has been released; by the
      invariant this determines the pointers of both streams.  A reference is created exactly when the input
      starts, needs one and has none, with an active output and a library that goes along. */
  lemma StepExactly(d: Device, e: Event)
    requires Inv(d)
    ensures var d' := Apply(d, e);
            var creates := e.StartInput? && d.inStandby && d.needEcho && d.echo == NULL && d.outActive && e.createOk;
            var releases := e.InputStandby? && !d.inStandby && d.echo != NULL;
            && d'.echo == (if creates then d.created + 1 else if releases then NULL else d.echo)
            && d'.created == d.created + (if creates then 1 else 0)
            && d'.released == d.released + (if releases then [d.echo] else [])
            && d'.outActive == (if e.StartOutput? && d.outStandby then e.pcmOk else !e.OutputStandby? && d.outActive)
            && d'.inActive == (if e.StartInput? && d.inStandby then e.pcmOk else !e.InputStandby? && d.inActive)
            && d'.needEcho == (if e.NeedEcho? then e.need else d.needEcho)
  {
    assert d.released + [] == d.released;
  }

  function Run(d: Device, es: seq<Event>, k: nat): Device
    requires k <= |es|
  {
    if k == 0 then d else Apply(Run(d, es, k - 1), es[k - 1])
  }

  /** In every run no stream keeps, and no event touches, a released reference, and none is released
      twice. */
  lemma {:induction false} RunSafe(d: Device, es: seq<Event>, k: nat)
    requires k <= |es| && Initial(d)
    ensures var d' := Run(d, es, k);
            && Inv(d') && Distinct(d'.released)
            && d'.inEcho !in d'.released && d'.outEcho !in d'.released
            && (k < |es| ==> forall r :: r in Used(d', es[k]) ==> r !in d'.released && r != NULL)
  {
    if k > 0 {
      RunSafe(d, es, k - 1);
      StepKeeps(Run(d, es, k - 1), es[k - 1]);
    }
    if k < |es| {
      StepKeeps(Run(d, es, k), es[k]);
    }
  }

  /** At most one reference is alive at any time: the one the device holds. */
  lemma {:induction false} AliveIsHeld(d: Device, es: seq<Event>, k: nat, r: Ref)
    requires k <= |es| && Initial(d) && 0 < r <= Run(d, es, k).created
    ensures r !in Run(d, es, k).released <==> r == Run(d, es, k).echo
  {
    RunSafe(d, es, k);
  }

  // ---------------------------------------------------------------- the imperative routines

  class AudioDevice {
    var echo: Ref
    var outEcho: Ref
    var inEcho: Ref
    var outActive: bool
    var inActive: bool
    var outStandby: bool
    var inStandby: bool
    var needEcho: bool
    var created: nat
    var released: seq<Ref>

    function Value(): Device
      reads this
    {
      Device(echo, outEcho, inEcho, outActive, inActive, outStandby, inStandby, needEcho, created, released)
    }

    constructor ()
      ensures Initial(Value())
    {
      echo, outEcho, inEcho := NULL, NULL, NULL;
      outActive, inActive, outStandby, inStandby, needEcho := false, false, true, true, false;
      created, released := 0, [];
    }

    /** Neither the device nor the output refers to anything released. */
    ghost predicate EchoAlive()
      reads this
    {
      echo !in released && outEcho !in released
    }

    /** The library must be called with references that are still alive. */
    method Use(ref: Ref)
      requires ref != NULL && ref !in released
    {
    }

    method ReleaseEchoReference(ref: Ref)
      requires ref != NULL && ref !in released
      modifies this`released
      ensures released == old(released) + [ref]
    {
      released := released + [ref];
    }

    method RemoveEchoReference(ref: Ref)
      requires outEcho == ref ==> ref != NULL && ref !in released
      modifies this`outEcho
      ensures outEcho == if old(outEcho) == ref then NULL else old(outEcho)
    {
      if outEcho == ref {
        Use(ref);
        outEcho := NULL;
      }
    }

    method PutEchoReference(ref: Ref)
      requires EchoAlive()
      modifies this`echo, this`outEcho, this`released
      ensures Value() == Put(old(Value()), ref)
    {
      if echo != NULL && ref == echo {
        if outActive {
          RemoveEchoReference(ref);
        }
        ReleaseEchoReference(ref);
        echo := NULL;
      }
    }

    method GetEchoReference(createOk: bool) returns (ref: Ref)
      requires EchoAlive()
      modifies this`echo, this`outEcho, this`released, this`created
      ensures Value() == Get(old(Value()), createOk) && ref == echo
    {
      PutEchoReference(echo);
      if outActive && createOk {
        created := created + 1;
        echo := created;
        outEcho := echo;
      }
      return echo;
    }

    /** Returns false for -ENOMEM. */
    method StartOutputStream(pcmOk: bool) returns (ok: bool)
      requires Inv(Value()) && outStandby
      modifies this
      ensures Value() == Apply(old(Value()), StartOutput(pcmOk)) && ok == pcmOk && Inv(Value())
    {
      StepKeeps(Value(), StartOutput(pcmOk));
      outActive := true;
      if !pcmOk {
        outActive := false;
        return false;
      }
      if echo != NULL {
        outEcho := echo;
      }
      outStandby := false;
      return true;
    }

    method DoOutputStandby()
      requires Inv(Value())
      modifies this
      ensures Value() == Apply(old(Value()), OutputStandby) && Inv(Value())
    {
      StepKeeps(Value(), OutputStandby);
      if !outStandby {
        outActive := false;
        if outEcho != NULL {
          Use(outEcho);
          outEcho := NULL;
        }
        outStandby := true;
      }
    }

    /** Returns false for -ENOMEM; the input then stays in standby, but keeps its echo reference. */
    method StartInputStream(pcmOk: bool, createOk: bool) returns (ok: bool)
      requires Inv(Value()) && inStandby
      modifies this
      ensures Value() == Apply(old(Value()), StartInput(pcmOk, createOk)) && ok == pcmOk && Inv(Value())
    {
      StepKeeps(Value(), StartInput(pcmOk, createOk));
      inActive := true;
      if needEcho && inEcho == NULL {
        inEcho := GetEchoReference(createOk);
      }
      if !pcmOk {
        inActive := false;
        return false;
      }
      inStandby := false;
      return true;
    }

    method DoInputStandby()
      requires Inv(Value())
      modifies this
      ensures Value() == Apply(old(Value()), InputStandby) && Inv(Value())
    {
      StepKeeps(Value(), InputStandby);
      if !inStandby {
        if inEcho != NULL {
          Use(inEcho);
          PutEchoReference(inEcho);
          inEcho := NULL;
        }
        inActive := false;
        inStandby := true;
      }
    }

    /** The part of a write that feeds the echo reference: an active output feeds the reference that
        the input reads, if there is one. */
    method FeedEcho() returns (fed: bool)
      requires Inv(Value())
      ensures fed <==> outActive && inEcho != NULL
      ensures fed ==> outEcho == inEcho && outEcho !in released
    {
      StepKeeps(Value(), WriteEcho);
      fed := outEcho != NULL;
      if fed {
        Use(outEcho);
      }
    }

    /** The part of a read that fetches from it, whether or not an output is active. */
    method FetchEcho() returns (fetched: bool)
      requires Inv(Value())
      ensures fetched <==> echo != NULL
      ensures fetched ==> inEcho == echo && inEcho !in released
    {
      StepKeeps(Value(), ReadEcho);
      fetched := inEcho != NULL;
      if fetched {
        Use(inEcho);
      }
    }
  }
}
