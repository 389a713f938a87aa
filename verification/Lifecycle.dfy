/** Opening, preparing, finalizing and closing a chain of filters over a plugin.  A plan
    says what the callbacks of every layer answer: they may succeed or fail in any way, and
    a filter may skip opening the backend below it. */
module Lifecycle {
  import opened Common

  // ---------- What the backends see ----------

  datatype Event = Opened(layer: nat) | Closed(layer: nat) | Prepared(layer: nat) | Finalized(layer: nat)

  function Applied(open: set<nat>, e: Event): set<nat> {
    if e.Opened? then open + {e.layer} else if e.Closed? then open - {e.layer} else open
  }

  // No layer is opened twice without a close, or closed when it is not open.
  predicate Allowed(open: set<nat>, e: Event) {
    (e.Opened? ==> e.layer !in open) && (e.Closed? ==> e.layer in open)
  }

  // The layers whose .open has passed and whose .close has not been called.
  function OpenNow(log: seq<Event>): set<nat> {
    if log == [] then {} else Applied(OpenNow(log[..|log| - 1]), log[|log| - 1])
  }

  predicate Orderly(log: seq<Event>) {
    log == [] || (Orderly(log[..|log| - 1]) && Allowed(OpenNow(log[..|log| - 1]), log[|log| - 1]))
  }

  lemma OneMore(log: seq<Event>, e: Event)
    ensures OpenNow(log + [e]) == Applied(OpenNow(log), e)
    ensures Orderly(log + [e]) <==> Orderly(log) && Allowed(OpenNow(log), e)
  {
    assert (log + [e])[..|log|] == log;
  }

  // ---------- What the backends answer ----------

  // ready: the context could be allocated, and there is a default export name if one is
  // needed.  skip: a filter does not open its backend.  The others tell what .open (whatever
  // became of the backend), .prepare and .finalize return.
  datatype Answers = Answers(ready: bool, skip: bool, open: bool, prepare: bool, finalize: bool)

  predicate Opens(plan: nat -> Answers, i: nat) {
    plan(i).ready && plan(i).open
  }

  // n contexts are opened from layer i down: as long as each layer opens and asks for the next.
  ghost predicate Stack(plan: nat -> Answers, i: nat, n: nat) {
    && n <= i + 1 && (n > 0 <==> Opens(plan, i))
    && (forall j :: 0 <= j <= i < j + n ==> Opens(plan, j))
    && (forall j :: 0 <= j <= i < j + n - 1 ==> !plan(j).skip)
    && (0 < n <= i ==> plan(i - n + 1).skip || !Opens(plan, i - n))
  }

  lemma NoStack(plan: nat -> Answers, i: nat)
    requires !Opens(plan, i)
    ensures Stack(plan, i, 0)
  {
  }

  lemma StackGrows(plan: nat -> Answers, i: nat, n: nat)
    requires if i > 0 && !plan(i).skip then Stack(plan, i - 1, n) else n == 0
    ensures Stack(plan, i, if Opens(plan, i) then n + 1 else 0)
  {
  }

  /** The chain reaches the plugin exactly if every layer opens and no filter skips its backend. */
  lemma ReachesPlugin(plan: nat -> Answers, i: nat, n: nat)
    requires Stack(plan, i, n)
    ensures n == i + 1 <==> forall j :: 0 <= j <= i ==> Opens(plan, j) && (j > 0 ==> !plan(j).skip)
  {
  }

  // ---------- Contexts ----------

  // An open context: HANDLE_CONNECTED and HANDLE_FAILED are its state bits.
  class Context {
    const layer: nat
    var connected: bool
    var failed: bool

    constructor (layer: nat)
      ensures this.layer == layer && !connected && !failed
    {
      this.layer, connected, failed := layer, false, false;
    }
  }

  // A chain of contexts, outermost first: each is the layer below the one before.
  ghost predicate Chained(cs: seq<Context>) {
    forall k :: 0 <= k < |cs| ==> cs[k].layer == cs[0].layer - k
  }

  ghost function Layers(cs: seq<Context>): set<nat> {
    set c | c in cs :: c.layer
  }

  lemma LayersOf(c: Context, cs: seq<Context>)
    ensures Layers([c] + cs) == {c.layer} + Layers(cs)
  {
    assert forall d :: d in [c] + cs <==> d == c || d in cs;
    forall i | i in {c.layer} + Layers(cs)
      ensures i in Layers([c] + cs)
    {
      if i == c.layer {
        assert c in [c] + cs;
      } else {
        var d :| d in cs && d.layer == i;
        assert d in [c] + cs;
      }
    }
  }

  lemma InnerLayers(cs: seq<Context>)
    requires cs != [] && Chained(cs)
    ensures Chained(cs[1..]) && cs[0].layer !in Layers(cs[1..])
    ensures Layers(cs) == {cs[0].layer} + Layers(cs[1..])
  {
    assert cs == [cs[0]] + cs[1..];
    LayersOf(cs[0], cs[1..]);
  }

  // Only the inner end of the chain, from context a on, has been prepared.
  ghost predicate PreparedFrom(cs: seq<Context>, a: nat)
    reads cs
  {
    a <= |cs| && forall k :: 0 <= k < |cs| ==> (cs[k].connected <==> a <= k)
  }

  ghost predicate NoneFailed(cs: seq<Context>)
    reads cs
  {
    forall c :: c in cs ==> !c.failed
  }

  // The calls of .close over a chain, of .prepare on the contexts from b to a (innermost
  // first), and of .finalize on the contexts from a to b (outermost first).
  ghost function Closes(cs: seq<Context>): seq<Event> {
    seq(|cs|, k requires 0 <= k < |cs| => Closed(cs[k].layer))
  }

  ghost function Prepares(cs: seq<Context>, a: nat, b: nat): seq<Event>
    requires b <= a <= |cs|
  {
    seq(a - b, k requires 0 <= k < a - b => Prepared(cs[a - 1 - k].layer))
  }

  ghost function Finalizes(cs: seq<Context>, a: nat, b: nat): seq<Event>
    requires a <= b <= |cs|
  {
    seq(b - a, k requires 0 <= k < b - a => Finalized(cs[a + k].layer))
  }

  lemma NoLayers()
    ensures Layers([]) == {} && Chained([])
  {
  }

  lemma LayersBelow(cs: seq<Context>, top: nat)
    requires Chained(cs) && (cs != [] ==> cs[0].layer < top)
    ensures forall j :: j in Layers(cs) ==> j < top
  {
  }

  lemma DistinctContexts(cs: seq<Context>, i: nat)
    requires i < |cs| && Chained(cs)
    ensures forall k :: 0 <= k < |cs| && k != i ==> cs[k] != cs[i]
  {
  }

  // Of the contexts before a, those from b on prepare, and the one before them does not.
  ghost predicate PreparesTo(plan: nat -> Answers, cs: seq<Context>, a: nat, b: nat) {
    && b <= a <= |cs|
    && (forall k :: b <= k < a ==> plan(cs[k].layer).prepare)
    && (b > 0 ==> !plan(cs[b - 1].layer).prepare)
  }

  lemma InnerPrepares(plan: nat -> Answers, cs: seq<Context>, a: nat, b: nat)
    requires cs != [] && 0 < b <= a <= |cs| && PreparesTo(plan, cs[1..], a - 1, b - 1)
    ensures forall k :: b <= k < a ==> plan(cs[k].layer).prepare
    ensures b > 1 ==> !plan(cs[b - 1].layer).prepare
    ensures Prepares(cs[1..], a - 1, b - 1) == Prepares(cs, a, b)
  {
    assert forall k :: 1 <= k < |cs| ==> cs[k] == cs[1..][k - 1];
  }

  lemma OuterChained(c: Context, cs: seq<Context>)
    requires Chained(cs) && (cs != [] ==> cs[0].layer + 1 == c.layer)
    ensures Chained([c] + cs)
  {
  }

  lemma InnerChained(cs: seq<Context>)
    requires cs != [] && Chained(cs)
    ensures Chained(cs[1..]) && cs[0] !in cs[1..]
  {
  }

  // The contexts before f finalize, and f does not.
  ghost predicate FinalizesTo(plan: nat -> Answers, cs: seq<Context>, f: nat) {
    && f <= |cs|
    && (forall k :: 0 <= k < f ==> plan(cs[k].layer).finalize)
    && (f < |cs| ==> !plan(cs[f].layer).finalize)
  }

  lemma FirstFailing(plan: nat -> Answers, cs: seq<Context>) returns (f: nat)
    ensures FinalizesTo(plan, cs, f)
  {
    f := 0;
    while f < |cs| && plan(cs[f].layer).finalize
      invariant f <= |cs| && forall k :: 0 <= k < f ==> plan(cs[k].layer).finalize
    {
      f := f + 1;
    }
  }

  class Server {
    var log: seq<Event>

    // backend_close: outermost first.
    method Close(cs: seq<Context>)
      requires cs != [] && Chained(cs) && Orderly(log) && Layers(cs) <= OpenNow(log)
      modifies this
      ensures Orderly(log) && OpenNow(log) == old(OpenNow(log)) - Layers(cs)
      ensures log == old(log) + Closes(cs)
      decreases |cs|
    {
      hide Orderly, OpenNow, Layers;
      OneMore(log, Closed(cs[0].layer));
      InnerLayers(cs);
      log := log + [Closed(cs[0].layer)];
      if |cs| > 1 {
        Close(cs[1..]);
      } else {
        assert cs[1..] == [];
        assert Layers(cs[1..]) == {} by { NoLayers(); }
      }
    }

    // backend_open.  An empty chain means that the open failed.
    method Open(plan: nat -> Answers, i: nat) returns (cs: seq<Context>)
      requires Orderly(log) && forall j :: j in OpenNow(log) ==> j > i
      modifies this
      ensures old(log) <= log && Orderly(log) && OpenNow(log) == old(OpenNow(log)) + Layers(cs)
      ensures Chained(cs) && fresh(cs) && (cs != [] ==> cs[0].layer == i)
      ensures PreparedFrom(cs, |cs|) && NoneFailed(cs) && Stack(plan, i, |cs|)
      decreases i
    {
      hide Orderly, OpenNow, Layers, Stack, Chained;
      NoLayers();
      if !plan(i).ready {
        NoStack(plan, i);
        return [];
      }
      var next := [];
      if i > 0 && !plan(i).skip {
        next := Open(plan, i - 1);
      }
      StackGrows(plan, i, |next|);
      if !plan(i).open {
        if i > 0 && next != [] {
          assert Layers(next) <= OpenNow(log);
          LayersBelow(next, i);
          Close(next);
        }
        return [];
      }
      LayersBelow(next, i);
      OneMore(log, Opened(i));
      log := log + [Opened(i)];
      var c := new Context(i);
      LayersOf(c, next);
      OuterChained(c, next);
      cs := [c] + next;
    }

    // backend_prepare: innermost first, and nothing for what is already connected.  The
    // calls of .prepare that succeed are those from b to a.
    method Prepare(plan: nat -> Answers, cs: seq<Context>, ghost a: nat) returns (ok: bool, ghost b: nat)
      requires cs != [] && Chained(cs) && PreparedFrom(cs, a) && Orderly(log)
      modifies this, cs
      ensures forall c :: c in cs ==> c.failed == old(c.failed)
      ensures Orderly(log) && OpenNow(log) == old(OpenNow(log))
      ensures PreparesTo(plan, cs, a, b) && PreparedFrom(cs, b) && (ok <==> b == 0)
      ensures log == old(log) + Prepares(cs, a, b)
      decreases |cs|
    {
      hide Orderly, OpenNow, Chained;
      InnerChained(cs);
      if cs[0].connected {
        return true, 0;
      }
      b := 1;
      if |cs| > 1 {
        var inner := cs[1..];
        ghost var below;
        ok, below := Prepare(plan, inner, a - 1);
        b := below + 1;
        InnerPrepares(plan, cs, a, b);
        if !ok {
          return;
        }
      }
      ok := plan(cs[0].layer).prepare;
      if !ok {
        return;
      }
      OneMore(log, Prepared(cs[0].layer));
      log := log + [Prepared(cs[0].layer)];
      cs[0].connected := true;
      b := 0;
    }

    // backend_finalize on the chain from context i inwards: outermost first, on exactly
    // the contexts that were prepared, up to the first that fails or that failed before.
    // That context is f, and the calls made are those before b.
    method Finalize(plan: nat -> Answers, cs: seq<Context>, i: nat, ghost a: nat) returns (ok: bool, ghost f: nat, ghost b: nat)
      requires i < |cs| && Chained(cs) && PreparedFrom(cs, a) && Orderly(log)
      modifies this, cs
      ensures Orderly(log) && OpenNow(log) == old(OpenNow(log))
      ensures PreparedFrom(cs, a)
      ensures forall k :: 0 <= k < |cs| && k != f ==> cs[k].failed == old(cs[k].failed)
      ensures i <= f <= |cs| && (forall k :: i <= k < f ==> !cs[k].failed) && (f < |cs| ==> cs[f].failed)
      ensures ok <==> f == |cs|
      ensures b == (if f < |cs| && !old(cs[f].failed) then f + 1 else f)
      ensures b <= |cs| && log == old(log) + Finalizes(cs, Max(a, i), Max(Max(a, i), b))
      ensures forall k :: Max(a, i) <= k < f ==> plan(cs[k].layer).finalize
      ensures f < |cs| && !old(cs[f].failed) ==> a <= f && !plan(cs[f].layer).finalize
      decreases |cs| - i
    {
      hide Orderly, OpenNow, Chained;
      if cs[i].failed {
        return false, i, i;
      }
      ok := true;
      if cs[i].connected {
        OneMore(log, Finalized(cs[i].layer));
        log := log + [Finalized(cs[i].layer)];
        ok := plan(cs[i].layer).finalize;
      }
      if !ok {
        cs[i].failed := true;
        DistinctContexts(cs, i);
        return false, i, i + 1;
      }
      if i + 1 < |cs| {
        ok, f, b := Finalize(plan, cs, i + 1, a);
      } else {
        return true, i + 1, i + 1;
      }
    }

    // One connection: the top context is opened and prepared in the handshake, finalized
    // once the requests are over, and closed when the connection is freed, unless the
    // server is already unloading.
    method Connection(plan: nat -> Answers, top: nat, handshake: bool, quit: bool)
      returns (ghost cs: seq<Context>, ghost start: seq<Event>, ghost b: nat, ghost f: nat)
      requires Orderly(log) && forall j :: j in OpenNow(log) ==> j > top
      modifies this
      ensures old(log) <= start && Orderly(log) && Orderly(start)
      ensures Chained(cs) && (cs != [] ==> cs[0].layer == top) && Stack(plan, top, |cs|)
      ensures OpenNow(start) == old(OpenNow(log)) + Layers(cs)
      ensures cs == [] || !quit ==> OpenNow(log) == old(OpenNow(log))
      ensures PreparesTo(plan, cs, |cs|, b) && FinalizesTo(plan, cs, f)
      ensures log == start + Prepares(cs, |cs|, b)
                           + (if b == 0 && handshake then Finalizes(cs, 0, Min(f + 1, |cs|)) else [])
                           + (if quit then [] else Closes(cs))
    {
      hide Orderly, OpenNow, Layers, Stack;
      NoLayers();
      var chain := Open(plan, top);
      cs, start, b, f := chain, log, 0, 0;
      if chain == [] {
        assert Closes(cs) == [];
        return;
      }
      LayersBelow(chain, top + 1);
      var ok;
      ok, b := Prepare(plan, chain, |chain|);
      if ok && handshake {
        ghost var e;
        ok, f, e := Finalize(plan, chain, 0, 0);
      } else {
        f := FirstFailing(plan, cs);
      }
      if !quit {
        Close(chain);
      }
    }
  }
}
