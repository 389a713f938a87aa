/** Cached capabilities along a chain of pass-through filters over a plugin, and how
    opening an export primes them and derives the flags it advertises. */
module Capabilities {
  import opened Common

  datatype Cap = Write | Flush | Rotational | Trim | Zero | FastZero | Fua | MultiConn | Extents | Cache

  // NBDKIT_{ZERO,FUA,CACHE}_{NONE,EMULATE,NATIVE}
  const NONE: int := 0
  const EMULATE: int := 1
  const NATIVE: int := 2

  // The context of one layer: whether it is prepared, the cached size, and the
  // cached answers.  -1, "not asked yet", is a missing entry.
  datatype Layer = Layer(connected: bool, size: int, cache: map<Cap, int>)

  // What the plugin answers: a size or -1, and per capability -1 for an error, else 0
  // or 1, or one of the three levels for Zero, Fua and Cache.
  datatype Plugin = Plugin(size: int, answer: Cap -> int)

  ghost predicate Normalised(p: Plugin) {
    && -1 <= p.size <= INT64_MAX
    && forall c: Cap :: -1 <= p.answer(c) <= if c.Zero? || c.Fua? || c.Cache? then 2 else 1
  }

  // The capability that must hold before this one is asked for, and how much of it.
  function Prerequisite(c: Cap): (Cap, int) {
    match c
    case Trim => (Write, 1)
    case Zero => (Write, 1)
    case Fua => (Write, 1)
    case FastZero => (Zero, EMULATE)
    case _ => (c, 0)
  }

  function Rank(c: Cap): nat {
    match c case FastZero => 2 case Trim => 1 case Zero => 1 case Fua => 1 case _ => 0
  }

  /** What every layer answers: what the plugin says, except that nothing can be
      written when the connection is read-only, and that a capability whose
      prerequisite is missing is missing too. */
  function Effective(p: Plugin, readonly: bool, c: Cap): int
    decreases Rank(c)
  {
    if c == Write && readonly then 0
    else
      var (q, least) := Prerequisite(c);
      if q != c && Effective(p, readonly, q) < least then Effective(p, readonly, q) else p.answer(c)
  }

  lemma {:induction false} EffectiveRange(p: Plugin, readonly: bool, c: Cap)
    requires Normalised(p)
    ensures -1 <= Effective(p, readonly, c) <= if c.Zero? || c.Fua? || c.Cache? then 2 else 1
    decreases Rank(c)
  {
    var q := Prerequisite(c).0;
    if q != c {
      EffectiveRange(p, readonly, q);
    }
  }

  /** Without write there is no trim, zero, fast zero or FUA, without zero no fast zero, and
      otherwise the answer is the plugin's. */
  lemma EffectiveIs(p: Plugin, readonly: bool)
    ensures var write, zero := Effective(p, readonly, Write), Effective(p, readonly, Zero);
            && write == (if readonly then 0 else p.answer(Write))
            && zero == (if write >= 1 then p.answer(Zero) else write)
            && Effective(p, readonly, Trim) == (if write >= 1 then p.answer(Trim) else write)
            && Effective(p, readonly, Fua) == (if write >= 1 then p.answer(Fua) else write)
            && Effective(p, readonly, FastZero) == (if zero >= EMULATE then p.answer(FastZero) else zero)
    ensures forall c: Cap :: Rank(c) == 0 && c != Write ==> Effective(p, readonly, c) == p.answer(c)
  {
  }

  // Whether the question gets as far as the plugin.
  predicate Reaches(p: Plugin, readonly: bool, c: Cap) {
    var (q, least) := Prerequisite(c);
    q == c || Effective(p, readonly, q) >= least
  }

  // When opening an export asks for each capability.
  function Turn(c: Cap): nat {
    match c
    case Write => 0 case Zero => 1 case FastZero => 2 case Trim => 3 case Fua => 4
    case Flush => 5 case Rotational => 6 case MultiConn => 7 case Cache => 8 case Extents => 9
  }

  // The per-export flags.
  datatype ExportFlags = ExportFlags(readOnly: bool, writeZeroes: bool, fastZero: bool, trim: bool, fua: bool,
                                     flush: bool, rotational: bool, multiConn: bool, cache: bool, df: bool)

  class Backends {
    const plugin: Plugin
    const readonly: bool
    // layers[0] is the plugin, the last one is the filter next to the client.
    var layers: seq<Layer>

    // backend_open and backend_prepare have passed for every layer.
    constructor (plugin: Plugin, readonly: bool, filters: nat)
      ensures this.plugin == plugin && this.readonly == readonly
      ensures |layers| == filters + 1 && Sound()
    {
      this.plugin, this.readonly := plugin, readonly;
      layers := seq(filters + 1, _ => Layer(true, -1, if readonly then map[Write := 0] else map[]));
    }

    // A prepared layer whose cached answers are all the effective ones.
    ghost predicate SoundLayer(l: Layer) {
      && l.connected && l.size in {-1, plugin.size}
      && (readonly ==> Write in l.cache)
      && forall c :: c in l.cache ==> l.cache[c] == Effective(plugin, readonly, c)
    }

    // What came from the plugin to the upper layer is cached in the lower one too.
    ghost predicate Passed(upper: Layer, lower: Layer) {
      && (upper.size != -1 ==> lower.size != -1)
      && forall c :: c in upper.cache && Reaches(plugin, readonly, c) ==> c in lower.cache
    }

    ghost predicate Sound()
      reads this
    {
      && |layers| > 0
      && (forall i :: 0 <= i < |layers| ==> SoundLayer(layers[i]))
      && (forall i, j :: 0 <= j < i < |layers| ==> Passed(layers[i], layers[j]))
    }

    // Nothing already cached is forgotten, and only layers up to top change.
    ghost predicate Grown(before: seq<Layer>, top: nat)
      reads this
    {
      && |layers| == |before|
      && (forall i :: 0 <= i < |layers| ==> Kept(before[i], layers[i]))
      && (forall i :: top < i < |layers| ==> layers[i] == before[i])
    }

    ghost predicate Kept(l: Layer, l': Layer) {
      l.cache.Keys <= l'.cache.Keys && (l.size != -1 ==> l'.size == l.size)
    }

    // Cache an answer in layer i.
    method Remember(i: nat, c: Cap, v: int)
      requires Sound() && i < |layers| && v == Effective(plugin, readonly, c)
      requires Reaches(plugin, readonly, c) ==> forall j :: 0 <= j < i ==> c in layers[j].cache
      modifies this`layers
      ensures Sound() && Grown(old(layers), i) && c in layers[i].cache
    {
      hide Effective, Reaches, SoundLayer, Passed;
      var l := Cached(layers[i], c, v);
      CachedIsSound(layers[i], c, v);
      forall k | 0 <= k < |layers| && k != i
        ensures k > i ==> Passed(layers[k], l)
        ensures k < i ==> Passed(l, layers[k])
      {
        if k > i {
          CachedBelow(layers[k], layers[i], c, v);
        } else {
          CachedAbove(layers[i], layers[k], c, v);
        }
      }
      layers := layers[i := l];
    }

    static function Cached(l: Layer, c: Cap, v: int): Layer { l.(cache := l.cache[c := v]) }

    lemma CachedIsSound(l: Layer, c: Cap, v: int)
      requires SoundLayer(l) && v == Effective(plugin, readonly, c)
      ensures SoundLayer(Cached(l, c, v))
    {
    }

    lemma CachedBelow(upper: Layer, lower: Layer, c: Cap, v: int)
      requires Passed(upper, lower)
      ensures Passed(upper, Cached(lower, c, v))
    {
    }

    lemma CachedAbove(upper: Layer, lower: Layer, c: Cap, v: int)
      requires Passed(upper, lower) && (Reaches(plugin, readonly, c) ==> c in lower.cache)
      ensures Passed(Cached(upper, c, v), lower)
    {
    }

    // backend_get_size
    method GetSize(i: nat) returns (r: int)
      requires Sound() && i < |layers|
      modifies this`layers
      ensures Sound() && Grown(old(layers), i) && r == plugin.size
      ensures layers[i].size == r
      decreases i
    {
      r := layers[i].size;
      if r == -1 {
        if i == 0 {
          r := plugin.size;
        } else {
          r := GetSize(i - 1);
        }
        layers := layers[i := layers[i].(size := r)];
      }
    }

    // backend_can_write and the other backend_can_* functions.  A pass-through filter
    // asks the layer below.
    method Can(i: nat, c: Cap) returns (r: int)
      requires Sound() && i < |layers| && Normalised(plugin)
      modifies this`layers
      ensures r == Effective(plugin, readonly, c) && |layers| == old(|layers|)
      ensures r != -1 ==> Sound() && Grown(old(layers), i) && c in layers[i].cache
      decreases i, Rank(c)
    {
      hide Effective, SoundLayer, Passed, Backends.Sound;
      CachedAnswer(i, c);
      if c in layers[i].cache {
        return layers[i].cache[c];
      }
      EffectiveStep(c);
      var (q, least) := Prerequisite(c);
      if q != c {
        var p := Can(i, q);
        if p < least {
          EffectiveRange(plugin, readonly, q);
          if p == -1 {
            layers := layers[i := layers[i].(cache := layers[i].cache[c := 0])];
          } else {
            Remember(i, c, 0);
          }
          return p;
        }
      }
      if i == 0 {
        r := plugin.answer(c);
      } else {
        r := Can(i - 1, c);
      }
      if r != -1 {
        if i > 0 && Reaches(plugin, readonly, c) {
          KnownBelow(i - 1, c);
        }
        Remember(i, c, r);
      }
    }

    lemma CachedAnswer(i: nat, c: Cap)
      requires Sound() && i < |layers|
      ensures c in layers[i].cache ==> layers[i].cache[c] == Effective(plugin, readonly, c)
      ensures c == Write && readonly ==> c in layers[i].cache
      ensures i > 0 && Reaches(plugin, readonly, c) && c in layers[i].cache ==> c in layers[i - 1].cache
    {
      hide Effective;
      assert SoundLayer(layers[i]);
      assert i > 0 ==> Passed(layers[i], layers[i - 1]);
    }

    // An answer the layer below has, every layer below that has.
    lemma KnownBelow(i: nat, c: Cap)
      requires Sound() && i < |layers| && Reaches(plugin, readonly, c) && c in layers[i].cache
      ensures forall j :: 0 <= j < i ==> c in layers[j].cache
    {
      hide Effective;
      forall j | 0 <= j < i ensures c in layers[j].cache {
        assert Passed(layers[i], layers[j]);
      }
    }

    lemma EffectiveStep(c: Cap)
      ensures var (q, least) := Prerequisite(c);
              && (c == Write && readonly ==> Effective(plugin, readonly, c) == 0)
              && (q != c && Effective(plugin, readonly, q) < least ==> Effective(plugin, readonly, c) == Effective(plugin, readonly, q))
              && (Reaches(plugin, readonly, c) && !(c == Write && readonly) ==> Effective(plugin, readonly, c) == plugin.answer(c))
    {
    }

    // No layer fails to answer.
    ghost predicate Known(c: Cap) { Effective(plugin, readonly, c) >= 0 }

    lemma AllKnown()
      ensures (forall c: Cap :: Known(c)) <==>
                && Known(Write) && Known(Zero) && Known(FastZero) && Known(Trim) && Known(Fua)
                && Known(Flush) && Known(Rotational) && Known(MultiConn) && Known(Cache) && Known(Extents)
    {
      hide Known;
      if Known(Write) && Known(Zero) && Known(FastZero) && Known(Trim) && Known(Fua) &&
        Known(Flush) && Known(Rotational) && Known(MultiConn) && Known(Cache) && Known(Extents)
      {
        forall c: Cap
          ensures Known(c)
        {
          match c { case Write => case Flush => case Rotational => case Trim => case Zero =>
                    case FastZero => case Fua => case MultiConn => case Extents => case Cache => }
        }
      }
    }

    // The top layer has answers for the first n capabilities asked for.
    ghost predicate Asked(n: nat)
      reads this
    {
      && Sound() && layers[|layers| - 1].size == plugin.size >= 0
      && forall c: Cap :: Turn(c) < n ==> c in layers[|layers| - 1].cache.Keys && Effective(plugin, readonly, c) >= 0
    }

    // After a successful open the top layer has an answer for everything.
    ghost predicate Primed()
      reads this
    {
      Asked(10)
    }

    method Ask(c: Cap) returns (r: int)
      requires Asked(Turn(c)) && Normalised(plugin)
      modifies this`layers
      ensures |layers| == old(|layers|)
      ensures r == Effective(plugin, readonly, c)
      ensures if r == -1 then !Known(c) else r >= 0 && Known(c) && Asked(Turn(c) + 1)
    {
      hide Effective, SoundLayer, Passed;
      r := Can(|layers| - 1, c);
      EffectiveRange(plugin, readonly, c);
    }

    method AskSize() returns (size: int)
      requires Sound()
      modifies this`layers
      ensures |layers| == old(|layers|)
      ensures size == plugin.size && (size >= 0 ==> Asked(0))
    {
      size := GetSize(|layers| - 1);
    }

    // The first five questions of protocol_common_open.
    method AskWriting(df: bool) returns (ok: bool, flags: ExportFlags)
      requires Asked(0) && Normalised(plugin)
      modifies this`layers
      ensures |layers| == old(|layers|)
      ensures ok <==> Known(Write) && Known(Zero) && Known(FastZero) && Known(Trim) && Known(Fua)
      ensures ok ==> Asked(5)
                     && flags == Advertised(df, false).(flush := false, rotational := false, cache := false)
    {
      hide Effective, Asked, Normalised, Known;
      flags := ExportFlags(false, false, false, false, false, false, false, false, false, df);
      ok := false;
      var fl := Ask(Write);
      if fl == -1 { return; }
      flags := flags.(readOnly := fl == 0);
      fl := Ask(Zero);
      if fl == -1 { return; }
      flags := flags.(writeZeroes := fl != 0);
      fl := Ask(FastZero);
      if fl == -1 { return; }
      flags := flags.(fastZero := fl != 0);
      fl := Ask(Trim);
      if fl == -1 { return; }
      flags := flags.(trim := fl != 0);
      fl := Ask(Fua);
      if fl == -1 { return; }
      flags := flags.(fua := fl != 0);
      ok := true;
    }

    // The next three questions.
    method AskMiddle(parallelConnections: bool, before: ExportFlags) returns (ok: bool, flags: ExportFlags)
      requires Asked(5) && Normalised(plugin)
      modifies this`layers
      ensures |layers| == old(|layers|)
      ensures ok <==> Known(Flush) && Known(Rotational) && Known(MultiConn)
      ensures ok ==>
                && Asked(8)
                && var all := Advertised(before.df, parallelConnections);
                   flags == before.(flush := all.flush, rotational := all.rotational, multiConn := all.multiConn)
    {
      hide Effective, Asked, Normalised, Known;
      flags := before;
      ok := false;
      var flush := Ask(Flush);
      if flush == -1 { return; }
      var rotational := Ask(Rotational);
      if rotational == -1 { return; }
      var multiConn := Ask(MultiConn);
      if multiConn == -1 { return; }
      flags := flags.(flush := flush != 0, rotational := rotational != 0, multiConn := multiConn != 0 && parallelConnections);
      ok := true;
    }

    // The last two.
    method AskRest(parallelConnections: bool, before: ExportFlags) returns (ok: bool, flags: ExportFlags)
      requires Asked(8) && Normalised(plugin)
      modifies this`layers
      ensures |layers| == old(|layers|)
      ensures ok <==> Known(Cache) && Known(Extents)
      ensures ok ==> Asked(10) && flags == before.(cache := Advertised(before.df, parallelConnections).cache)
    {
      hide Effective, Asked, Normalised, Known;
      flags := before;
      ok := false;
      var fl := Ask(Cache);
      if fl == -1 { return; }
      flags := flags.(cache := fl != 0);
      fl := Ask(Extents);
      if fl == -1 { return; }
      ok := true;
    }

    /** What is advertised, in terms of the plugin: nothing that changes the disk unless it can
        be written, no fast zero without zero, and otherwise what the plugin answers. */
    lemma AdvertisedIs(df: bool, parallelConnections: bool)
      requires Normalised(plugin) && forall c: Cap :: Known(c)
      ensures var f := Advertised(df, parallelConnections);
              var writes := !readonly && plugin.answer(Write) == 1;
              && f.readOnly == !writes
              && f.trim == (writes && plugin.answer(Trim) == 1)
              && f.writeZeroes == (writes && plugin.answer(Zero) != NONE)
              && f.fastZero == (writes && plugin.answer(Zero) != NONE && plugin.answer(FastZero) == 1)
              && f.fua == (writes && plugin.answer(Fua) != NONE)
              && f.flush == (plugin.answer(Flush) == 1) && f.rotational == (plugin.answer(Rotational) == 1)
              && f.multiConn == (parallelConnections && plugin.answer(MultiConn) == 1)
              && f.cache == (plugin.answer(Cache) != NONE) && f.df == df
    {
      hide Effective;
      EffectiveIs(plugin, readonly);
      assert Known(Write) && Known(Flush) && Known(Rotational) && Known(Trim) && Known(Zero);
      assert Known(FastZero) && Known(Fua) && Known(MultiConn) && Known(Cache);
    }

    // protocol_common_open, from the export size on.  Every capability is asked for
    // even when it is not advertised.
    method CommonOpen(structuredReplies: bool, parallelConnections: bool) returns (ok: bool, size: int, flags: ExportFlags)
      requires Sound() && Normalised(plugin)
      modifies this`layers
      ensures |layers| == old(|layers|)
      ensures ok <==> plugin.size >= 0 && forall c: Cap :: Known(c)
      ensures ok ==> Primed() && size == plugin.size && flags == Advertised(structuredReplies, parallelConnections)
    {
      hide Effective, Asked, Sound, Normalised, Known;
      flags := ExportFlags(false, false, false, false, false, false, false, false, false, false);
      ok := false;
      size := AskSize();
      if size >= 0 {
        ok, flags := AskWriting(structuredReplies);
        if ok {
          ok, flags := AskMiddle(parallelConnections, flags);
        }
        if ok {
          ok, flags := AskRest(parallelConnections, flags);
        }
      }
      AllKnown();
    }

    ghost function Advertised(structuredReplies: bool, parallelConnections: bool): ExportFlags {
      ExportFlags(Effective(plugin, readonly, Write) == 0, Effective(plugin, readonly, Zero) > 0,
                  Effective(plugin, readonly, FastZero) > 0, Effective(plugin, readonly, Trim) > 0,
                  Effective(plugin, readonly, Fua) > 0, Effective(plugin, readonly, Flush) > 0,
                  Effective(plugin, readonly, Rotational) > 0,
                  Effective(plugin, readonly, MultiConn) > 0 && parallelConnections,
                  Effective(plugin, readonly, Cache) > 0, structuredReplies)
    }
  }
}
