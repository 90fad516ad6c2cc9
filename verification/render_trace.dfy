/**
 * The renderer the blur drives, seen as a recorder of the operations it is asked to perform:
 * render-target allocations (which may fail), clears and rectangle fills with a paint.
 * Every operation acts on the most recently allocated render target.
 */
module RenderTrace {
  import opened Geometry
  import opened PixelConfigs

  datatype Option<T> = None | Some(value: T)

  /** SkBackingFit: exact size or an approximate (possibly larger, recycled) backing. */
  datatype Fit = Exact | Approx

  /** GrTextureDomain::Mode: how samples outside the content bounds are treated. */
  datatype Mode = Ignore | Clamp | Repeat | Decal

  /** The axis of a separable convolution pass. */
  datatype Direction = X | Y

  /** A render target: the fit, logical width and height, and pixel configuration it was requested with. */
  datatype Target = Target(fit: Fit, width: int, height: int, config: PixelConfig)

  /** What a fill samples its colour from. */
  datatype Paint =
      /** 1-D Gaussian convolution of 2*radius+1 taps; lo and hi are the content bounds along the axis. */
    | Gaussian1D(direction: Direction, radius: int, sigma: real, mode: Mode, lo: int, hi: int)
      /** 2-D Gaussian convolution of (2*radiusX+1) x (2*radiusY+1) taps within bounds. */
    | Gaussian2D(bounds: IRect, radiusX: int, radiusY: int, sigmaX: real, sigmaY: real, mode: Mode)
      /** Bilinear sampling restricted to a domain, inset by half a texel on the flagged axes. */
    | DomainBilerp(domain: IRect, halfInsetX: bool, halfInsetY: bool, mode: Mode)
      /** Plain bilinear sampling with clamping at the texture edge. */
    | ClampBilerp

  datatype Op =
    | Alloc(target: Target)
    | AllocFailed(target: Target)
      /** Clear to transparent black, clipped to the target's logical bounds. */
    | Clear(rect: IRect)
      /** Clear to transparent black in backing-store coordinates, not clipped to the logical bounds. */
    | AbsClear(rect: IRect)
      /** Fill dst (within clip), sampling at each pixel minus srcOffset. */
    | DrawLocal(clip: IRect, dst: IRect, srcOffset: IPoint, paint: Paint)
      /** Fill dst (within clip), mapping it onto the source rectangle src. */
    | DrawRectToRect(clip: IRect, dst: IRect, src: IRect, paint: Paint)

  /** True iff op writes pixel (x, y) of its target. */
  predicate Writes(op: Op, x: int, y: int)
  {
    match op
    case Clear(rect) => rect.Contains(x, y)
    case AbsClear(rect) => rect.Contains(x, y)
    case DrawLocal(clip, dst, _, _) => clip.Contains(x, y) && dst.Contains(x, y)
    case DrawRectToRect(clip, dst, _, _) => clip.Contains(x, y) && dst.Contains(x, y)
    case _ => false
  }

  /** How many operations of a trace write pixel (x, y). */
  function WriteCount(ops: seq<Op>, x: int, y: int): nat
  {
    if ops == [] then 0 else (if Writes(ops[0], x, y) then 1 else 0) + WriteCount(ops[1..], x, y)
  }

  /** The sampling modes of the 1-D convolution fills that write pixel (x, y). */
  function DrawModes(ops: seq<Op>, x: int, y: int): set<Mode>
  {
    if ops == [] then {}
    else
      (if Writes(ops[0], x, y) && ops[0].DrawLocal? && ops[0].paint.Gaussian1D? then {ops[0].paint.mode} else {})
      + DrawModes(ops[1..], x, y)
  }

  lemma {:induction false} WriteCountAppend(a: seq<Op>, b: seq<Op>, x: int, y: int)
    ensures WriteCount(a + b, x, y) == WriteCount(a, x, y) + WriteCount(b, x, y)
    ensures DrawModes(a + b, x, y) == DrawModes(a, x, y) + DrawModes(b, x, y)
  {
    if a == [] {
      assert a + b == b;
    } else {
      assert (a + b)[1..] == a[1..] + b;
      WriteCountAppend(a[1..], b, x, y);
    }
  }

  lemma WriteCountOne(op: Op, x: int, y: int)
    ensures WriteCount([op], x, y) == if Writes(op, x, y) then 1 else 0
    ensures DrawModes([op], x, y) ==
      if Writes(op, x, y) && op.DrawLocal? && op.paint.Gaussian1D? then {op.paint.mode} else {}
  {
    assert [op][1..] == [];
  }

  /** How many operations since the last allocation write pixel (x, y): the writes to the current target. */
  function CurrentWrites(ops: seq<Op>, x: int, y: int): nat
  {
    if ops == [] then 0
    else if ops[|ops| - 1].Alloc? then 0
    else (if Writes(ops[|ops| - 1], x, y) then 1 else 0) + CurrentWrites(ops[..|ops| - 1], x, y)
  }

  /** True iff the trace allocates nothing. */
  predicate NoAlloc(ops: seq<Op>)
  {
    forall i :: 0 <= i < |ops| ==> !ops[i].Alloc?
  }

  /** After an allocation followed by operations that allocate nothing, the current target is written by those. */
  lemma {:induction false} CurrentWritesAfter(a: seq<Op>, t: Target, b: seq<Op>, x: int, y: int)
    requires NoAlloc(b)
    ensures CurrentWrites(a + [Alloc(t)] + b, x, y) == WriteCount(b, x, y)
    decreases |b|
  {
    var s := a + [Alloc(t)] + b;
    if b == [] {
      assert s[|s| - 1] == Alloc(t);
    } else {
      var init := b[..|b| - 1];
      assert s[..|s| - 1] == a + [Alloc(t)] + init;
      assert s[|s| - 1] == b[|b| - 1];
      CurrentWritesAfter(a, t, init, x, y);
      assert b == init + [b[|b| - 1]];
      WriteCountAppend(init, [b[|b| - 1]], x, y);
      WriteCountOne(b[|b| - 1], x, y);
    }
  }

  /** A trace that allocates nothing has no allocated targets. */
  lemma {:induction false} NoAllocAllocated(ops: seq<Op>)
    requires NoAlloc(ops)
    ensures Allocated(ops) == []
  {
    if ops != [] {
      NoAllocAllocated(ops[1..]);
    }
  }

  /** The domain effect cannot filter in Repeat mode, so resampling passes use Decal instead. */
  function ModeForScaling(mode: Mode): (m: Mode)
    ensures m != Repeat
    ensures mode != Repeat ==> m == mode
    ensures mode == Repeat ==> m == Decal
  {
    if mode == Repeat then Decal else mode
  }

  /** The targets successfully allocated in a trace, in order. */
  function Allocated(ops: seq<Op>): (a: seq<Target>)
    ensures |a| <= |ops|
  {
    if ops == [] then []
    else (if ops[0].Alloc? then [ops[0].target] else []) + Allocated(ops[1..])
  }

  lemma {:induction false} AllocatedAppend(a: seq<Op>, b: seq<Op>)
    ensures Allocated(a + b) == Allocated(a) + Allocated(b)
  {
    if a == [] {
      assert a + b == b;
    } else {
      var head := if a[0].Alloc? then [a[0].target] else [];
      assert (a + b)[0] == a[0];
      assert (a + b)[1..] == a[1..] + b;
      AllocatedAppend(a[1..], b);
      calc {
        Allocated(a + b);
        head + Allocated(a[1..] + b);
        head + (Allocated(a[1..]) + Allocated(b));
        (head + Allocated(a[1..])) + Allocated(b);
        Allocated(a) + Allocated(b);
      }
    }
  }

  /** Every target in a is an intermediate: approximate fit, in the given configuration. */
  predicate Intermediates(a: seq<Target>, config: PixelConfig)
  {
    forall n :: 0 <= n < |a| ==> a[n].fit == Approx && a[n].config == config
  }

  lemma IntermediatesAppend(a: seq<Target>, b: seq<Target>, config: PixelConfig)
    requires Intermediates(a, config) && Intermediates(b, config)
    ensures Intermediates(a + b, config)
  {
    forall n | 0 <= n < |a + b|
      ensures (a + b)[n].fit == Approx && (a + b)[n].config == config
    {
      if n < |a| {
        assert (a + b)[n] == a[n];
      } else {
        assert (a + b)[n] == b[n - |a|];
      }
    }
  }

  /** run is full cut short by a failed allocation: full up to an Alloc, which failed instead. */
  predicate IsAbortOf(run: seq<Op>, full: seq<Op>)
  {
    && 1 <= |run| <= |full|
    && run[..|run| - 1] == full[..|run| - 1]
    && full[|run| - 1].Alloc?
    && run[|run| - 1] == AllocFailed(full[|run| - 1].target)
  }

  /** How a trace after continues a trace before, measured against the planned operations. */
  datatype RunKind =
    | Complete   // before followed by all the planned operations
    | Aborted    // before followed by the planned operations cut short at a failed allocation
    | Unrelated  // anything else

  function KindOf(before: seq<Op>, after: seq<Op>, full: seq<Op>): (k: RunKind)
    ensures k != Unrelated ==> |before| <= |after| && after[..|before|] == before
    ensures k == Complete <==> after == before + full
  {
    if |before| <= |after| && after[..|before|] == before then
      var run := after[|before|..];
      assert after == before + run;
      if run == full then Complete else if IsAbortOf(run, full) then Aborted else Unrelated
    else Unrelated
  }

  /** after is before followed by full (ok) or by full cut short at a failed allocation (not ok). */
  predicate Extends(before: seq<Op>, after: seq<Op>, full: seq<Op>, ok: bool)
  {
    KindOf(before, after, full) == if ok then Complete else Aborted
  }

  lemma ExtendsNothing(ops: seq<Op>)
    ensures Extends(ops, ops, [], true)
  {
  }

  lemma ExtendsByOne(before: seq<Op>, op: Op)
    ensures Extends(before, before + [op], [op], true)
  {
    assert (before + [op])[|before|..] == [op];
  }

  /** A run of full and then a run of more make a run of full + more. */
  lemma ExtendsThen(a: seq<Op>, b: seq<Op>, c: seq<Op>, full: seq<Op>, more: seq<Op>, ok: bool)
    requires Extends(a, b, full, true)
    requires Extends(b, c, more, ok)
    ensures Extends(a, c, full + more, ok)
  {
    assert b == a + full by {
      assert b == b[..|a|] + b[|a|..];
    }
    assert c == b + c[|b|..] by {
      assert c == c[..|b|] + c[|b|..];
    }
    var rest := c[|b|..];
    assert c == a + (full + rest) by {
      assert a + full + rest == a + (full + rest);
    }
    assert c[..|a|] == a;
    assert c[|a|..] == full + rest;
    if !ok {
      var run := c[|b|..];
      var whole := c[|a|..];
      assert |whole| == |full| + |run|;
      assert whole[..|whole| - 1] == full + run[..|run| - 1];
      assert (full + more)[..|whole| - 1] == full + more[..|run| - 1];
      assert whole[|whole| - 1] == run[|run| - 1];
      assert (full + more)[|whole| - 1] == more[|run| - 1];
    }
  }

  /** A complete run is the planned operations appended. */
  lemma ExtendedBy(before: seq<Op>, after: seq<Op>, full: seq<Op>)
    requires Extends(before, after, full, true)
    ensures after == before + full
  {
    assert after == after[..|before|] + after[|before|..];
  }

  /** A run cut short stays cut short when more operations were planned after it. */
  lemma AbortedBefore(a: seq<Op>, b: seq<Op>, full: seq<Op>, more: seq<Op>)
    requires Extends(a, b, full, false)
    ensures Extends(a, b, full + more, false)
  {
    var run := b[|a|..];
    assert (full + more)[..|run| - 1] == full[..|run| - 1];
    assert (full + more)[|run| - 1] == full[|run| - 1];
  }

  /** Done so far, the next planned allocation failed. */
  lemma AbortAt(a: seq<Op>, done: seq<Op>, t: Target, rest: seq<Op>)
    ensures Extends(a, a + done + [AllocFailed(t)], done + [Alloc(t)] + rest, false)
  {
    var run := (a + done + [AllocFailed(t)])[|a|..];
    assert run == done + [AllocFailed(t)];
    assert run[..|run| - 1] == done;
    assert (done + [Alloc(t)] + rest)[..|done|] == done;
    assert (done + [Alloc(t)] + rest)[|done|] == Alloc(t);
  }

  /** The outcome of each allocation attempt in a trace, in order: true where it succeeded. */
  function Outcomes(ops: seq<Op>): (o: seq<bool>)
    ensures |o| <= |ops|
  {
    if ops == [] then []
    else (match ops[0] case Alloc(_) => [true] case AllocFailed(_) => [false] case _ => []) + Outcomes(ops[1..])
  }

  lemma {:induction false} OutcomesAppend(a: seq<Op>, b: seq<Op>)
    ensures Outcomes(a + b) == Outcomes(a) + Outcomes(b)
  {
    if a == [] {
      assert a + b == b;
    } else {
      assert (a + b)[0] == a[0];
      assert (a + b)[1..] == a[1..] + b;
      OutcomesAppend(a[1..], b);
    }
  }

  /** The outcomes the failing attempts dictate for attempts 0 .. n - 1: true where one succeeds. */
  function Dictated(failures: set<nat>, n: nat): (o: seq<bool>)
    ensures |o| == n
  {
    if n == 0 then [] else Dictated(failures, n - 1) + [n - 1 !in failures]
  }

  /** A trace accounts for the attempts made when all its operations do. */
  predicate Accounted(ops: seq<Op>, attempts: nat, failures: set<nat>)
  {
    AccountedUpTo(ops, |ops|, attempts, failures)
  }

  /** The first n operations of a trace account for the attempts made: none for none, else as AccountedAt says. */
  predicate AccountedUpTo(ops: seq<Op>, n: nat, attempts: nat, failures: set<nat>)
    requires n <= |ops|
    decreases n, 1
  {
    if n == 0 then attempts == 0 else AccountedAt(ops, n, attempts, failures)
  }

  /**
   * The first n operations account for the attempts made when the n-th, if a failed allocation,
   * is the attempt numbered attempts - 1 and a failing one, if a successful allocation, that
   * attempt and not a failing one, and those before it account for the attempts below it.
   */
  predicate AccountedAt(ops: seq<Op>, n: nat, attempts: nat, failures: set<nat>)
    requires 0 < n <= |ops|
    decreases n, 0
  {
    match ops[n - 1]
    case Alloc(_) => 0 < attempts && attempts - 1 !in failures && AccountedUpTo(ops, n - 1, attempts - 1, failures)
    case AllocFailed(_) => 0 < attempts && attempts - 1 in failures && AccountedUpTo(ops, n - 1, attempts - 1, failures)
    case _ => AccountedUpTo(ops, n - 1, attempts, failures)
  }

  /** Operations appended after the first n do not change whether those n account for the attempts. */
  lemma {:induction false} AccountedPrefix(ops: seq<Op>, more: seq<Op>, n: nat, attempts: nat, failures: set<nat>)
    requires n <= |ops|
    ensures AccountedUpTo(ops + more, n, attempts, failures) == AccountedUpTo(ops, n, attempts, failures)
    decreases n
  {
    if n > 0 {
      assert (ops + more)[n - 1] == ops[n - 1];
      assert AccountedUpTo(ops + more, n, attempts, failures) == AccountedAt(ops + more, n, attempts, failures);
      assert AccountedUpTo(ops, n, attempts, failures) == AccountedAt(ops, n, attempts, failures);
      AccountedPrefix(ops, more, n - 1, attempts, failures);
      if attempts > 0 {
        AccountedPrefix(ops, more, n - 1, attempts - 1, failures);
      }
    }
  }

  /** A trace that accounts for the attempts made still does once op is appended and counted. */
  lemma AccountedAppend(ops: seq<Op>, op: Op, attempts: nat, failures: set<nat>)
    requires Accounted(ops, attempts, failures)
    requires op.Alloc? || op.AllocFailed? ==> (op.Alloc? <==> attempts !in failures)
    ensures Accounted(ops + [op], if op.Alloc? || op.AllocFailed? then attempts + 1 else attempts, failures)
  {
    AccountedPrefix(ops, [op], |ops|, attempts, failures);
    assert (ops + [op])[|ops|] == op;
    assert AccountedAt(ops + [op], |ops| + 1, if op.Alloc? || op.AllocFailed? then attempts + 1 else attempts, failures);
  }

  /**
   * The first n operations account for the attempts made iff they record exactly attempts
   * allocation attempts, the one numbered k (counted from 0) succeeding iff k is not a failing one.
   */
  lemma {:induction false} AccountedUpToMeans(ops: seq<Op>, n: nat, attempts: nat, failures: set<nat>)
    requires n <= |ops|
    ensures AccountedUpTo(ops, n, attempts, failures) <==> Outcomes(ops[..n]) == Dictated(failures, attempts)
    decreases n
  {
    if n > 0 {
      var init, last := ops[..n - 1], ops[n - 1];
      assert AccountedUpTo(ops, n, attempts, failures) == AccountedAt(ops, n, attempts, failures);
      assert ops[..n] == init + [last];
      OutcomesAppend(init, [last]);
      assert [last][1..] == [];
      var o := Outcomes(init);
      if last.Alloc? || last.AllocFailed? {
        assert Outcomes(ops[..n]) == o + [last.Alloc?];
        if attempts == 0 {
          assert |Outcomes(ops[..n])| != |Dictated(failures, attempts)|;
        } else {
          var d := Dictated(failures, attempts - 1);
          assert Dictated(failures, attempts) == d + [attempts - 1 !in failures];
          assert Outcomes(ops[..n]) == Dictated(failures, attempts) <==> o == d && last.Alloc? == (attempts - 1 !in failures)
          by {
            if Outcomes(ops[..n]) == Dictated(failures, attempts) {
              assert (o + [last.Alloc?])[..|o|] == o;
              assert (d + [attempts - 1 !in failures])[..|d|] == d;
              assert (o + [last.Alloc?])[|o|] == last.Alloc?;
            }
          }
          AccountedUpToMeans(ops, n - 1, attempts - 1, failures);
        }
      } else {
        assert Outcomes(ops[..n]) == o;
        AccountedUpToMeans(ops, n - 1, attempts, failures);
      }
    }
  }

  /**
   * Accounted means: the trace records exactly attempts allocation attempts, and the one numbered
   * k (counted from 0) succeeded iff k is not one of the failing ones.
   */
  lemma AccountedMeans(ops: seq<Op>, attempts: nat, failures: set<nat>)
    ensures Accounted(ops, attempts, failures) <==> Outcomes(ops) == Dictated(failures, attempts)
  {
    AccountedUpToMeans(ops, |ops|, attempts, failures);
    assert ops[..|ops|] == ops;
  }

  /** None of the allocation attempts numbered from a0 up to a1 - 1 is a failing one. */
  predicate NoneFail(failures: set<nat>, a0: nat, a1: nat)
    decreases a1
  {
    a1 <= a0 || (a1 - 1 !in failures && NoneFail(failures, a0, a1 - 1))
  }

  /** No attempt from a0 to a2 fails iff none fails from a0 to a1 and none from a1 to a2. */
  lemma {:induction false} NoneFailThen(failures: set<nat>, a0: nat, a1: nat, a2: nat)
    requires a0 <= a1 <= a2
    ensures NoneFail(failures, a0, a2) <==> NoneFail(failures, a0, a1) && NoneFail(failures, a1, a2)
    decreases a2
  {
    if a1 < a2 {
      NoneFailThen(failures, a0, a1, a2 - 1);
    }
  }

  /**
   * A stage that ran in full, making attempts a0 to a1, followed by one that ran as ok says,
   * making attempts a1 to a2, make one run of both stages' operations that is ok exactly when
   * no attempt from a0 to a2 is a failing one.
   */
  lemma StagesThen(ops0: seq<Op>, ops1: seq<Op>, ops2: seq<Op>, a0: nat, a1: nat, a2: nat,
                   failures: set<nat>, first: seq<Op>, more: seq<Op>, ok: bool)
    requires Extends(ops0, ops1, first, true) && a0 <= a1 && NoneFail(failures, a0, a1)
    requires Extends(ops1, ops2, more, ok) && a1 <= a2 && (ok <==> NoneFail(failures, a1, a2))
    ensures Extends(ops0, ops2, first + more, ok) && a0 <= a2 && (ok <==> NoneFail(failures, a0, a2))
  {
    ExtendsThen(ops0, ops1, ops2, first, more, ok);
    NoneFailThen(failures, a0, a1, a2);
  }

  /** Without failing attempts, no range of attempts has one. */
  lemma {:induction false} NoneFailWithout(a0: nat, a1: nat)
    ensures NoneFail({}, a0, a1)
    decreases a1
  {
    if a0 < a1 {
      NoneFailWithout(a0, a1 - 1);
    }
  }

  /**
   * A run cut short by a failed allocation made attempts, and its last attempt is a failing one;
   * so a run during which no attempt is a failing one is never cut short.
   */
  lemma AbortExplained(ops0: seq<Op>, a0: nat, ops1: seq<Op>, a1: nat, failures: set<nat>, full: seq<Op>)
    requires Accounted(ops0, a0, failures) && Accounted(ops1, a1, failures)
    requires Extends(ops0, ops1, full, false)
    ensures a0 < a1 && a1 - 1 in failures && !NoneFail(failures, a0, a1)
  {
    AccountedMeans(ops0, a0, failures);
    AccountedMeans(ops1, a1, failures);
    var run := ops1[|ops0|..];
    var init := run[..|run| - 1];
    assert ops1 == ops0 + run;
    assert run == init + [run[|run| - 1]];
    OutcomesAppend(ops0, run);
    OutcomesAppend(init, [run[|run| - 1]]);
    assert Outcomes([run[|run| - 1]]) == [false];
    var o := Outcomes(ops1);
    assert |o| == a1 && o[|o| - 1] == false;
    assert Dictated(failures, a1)[a1 - 1] == (a1 - 1 !in failures);
  }

  /**
   * The render target context factory and the draws issued through it. Every operation is appended
   * to ops; an allocation attempt fails iff its number (counted from 0) is one of the failing ones.
   */
  class Renderer {
    var ops: seq<Op>
    var attempts: nat
    const failures: set<nat>

    /** The trace accounts for every attempt made so far. */
    predicate Valid()
      reads this
    {
      Accounted(ops, attempts, failures)
    }

    constructor (failures: set<nat>)
      ensures this.failures == failures && ops == [] && attempts == 0
      ensures Valid()
    {
      this.failures := failures;
      ops := [];
      attempts := 0;
    }

    /** makeDeferredRenderTargetContext: succeeds unless this attempt is one of the failing ones. */
    method MakeRenderTarget(t: Target) returns (ok: bool)
      requires Valid()
      modifies this
      ensures Valid()
      ensures ok <==> old(attempts) !in failures
      ensures attempts == old(attempts) + 1
      ensures ops == old(ops) + [if ok then Alloc(t) else AllocFailed(t)]
    {
      ok := attempts !in failures;
      var op := if ok then Alloc(t) else AllocFailed(t);
      AccountedAppend(ops, op, attempts, failures);
      ops := ops + [op];
      attempts := attempts + 1;
    }

    /** clear of a rectangle to transparent black. */
    method ClearRect(rect: IRect)
      requires Valid()
      modifies this
      ensures Valid()
      ensures ops == old(ops) + [Clear(rect)] && attempts == old(attempts)
    {
      AccountedAppend(ops, Clear(rect), attempts, failures);
      ops := ops + [Clear(rect)];
    }

    /** absClear of a rectangle to transparent black. */
    method AbsClearRect(rect: IRect)
      requires Valid()
      modifies this
      ensures Valid()
      ensures ops == old(ops) + [AbsClear(rect)] && attempts == old(attempts)
    {
      AccountedAppend(ops, AbsClear(rect), attempts, failures);
      ops := ops + [AbsClear(rect)];
    }

    /** fillRectWithLocalMatrix with a translation by -srcOffset. */
    method FillRectWithLocalMatrix(clip: IRect, dst: IRect, srcOffset: IPoint, paint: Paint)
      requires Valid()
      modifies this
      ensures Valid()
      ensures ops == old(ops) + [DrawLocal(clip, dst, srcOffset, paint)] && attempts == old(attempts)
    {
      AccountedAppend(ops, DrawLocal(clip, dst, srcOffset, paint), attempts, failures);
      ops := ops + [DrawLocal(clip, dst, srcOffset, paint)];
    }

    /** fillRectToRect. */
    method FillRectToRect(clip: IRect, dst: IRect, src: IRect, paint: Paint)
      requires Valid()
      modifies this
      ensures Valid()
      ensures ops == old(ops) + [DrawRectToRect(clip, dst, src, paint)] && attempts == old(attempts)
    {
      AccountedAppend(ops, DrawRectToRect(clip, dst, src, paint), attempts, failures);
      ops := ops + [DrawRectToRect(clip, dst, src, paint)];
    }
  }
}
