/**
 * The gate table of a circuit (`gateMap`: slot i holds the gate with id i, or nothing) and the
 * structural facts every pass relies on: each fanin edge is listed, with its polarity, in the fanout
 * list of the gate it reads, and nothing else is listed there.
 */
module CirGraph {
  import opened Wrappers
  import opened CirGate

  type GateMap = seq<Option<Gate>>

  /** Slot i of the table holds a gate. */
  predicate Live(gm: GateMap, i: nat)
  {
    i < |gm| && gm[i].Some?
  }

  /** The references the gate with id c reads, as a multiset; empty when there is no such gate. */
  function Ins(gm: GateMap, c: nat): multiset<Ref>
  {
    if Live(gm, c) then multiset(Fanins(gm[c].value.kind)) else multiset{}
  }

  /** The fanout entries of the gate with id p, as a multiset; empty when there is no such gate. */
  function Outs(gm: GateMap, p: nat): multiset<Ref>
  {
    if Live(gm, p) then multiset(gm[p].value.fanouts) else multiset{}
  }

  /**
   * Fanouts mirror fanins: gate p lists consumer c with polarity b exactly as many times as c reads p
   * with polarity b. Since a missing gate reads nothing and lists nothing, this also says that every
   * fanin and every fanout refers to a gate in the table.
   */
  ghost predicate Mirror(gm: GateMap)
  {
    forall p: nat, c: nat, b: bool :: Outs(gm, p)[Ref(c, b)] == Ins(gm, c)[Ref(p, b)]
  }

  /** Every gate sits in the slot of its own id. */
  ghost predicate IdsMatch(gm: GateMap)
  {
    forall i :: 0 <= i < |gm| && gm[i].Some? ==> gm[i].value.id == i
  }

  /** A fanin edge has its fanout entry at the gate it reads, and that gate exists. */
  lemma FaninListed(gm: GateMap, c: nat, r: Ref)
    requires Mirror(gm) && Live(gm, c) && r in Fanins(gm[c].value.kind)
    ensures Live(gm, r.id) && Ref(c, r.inv) in gm[r.id].value.fanouts
  {
    assert Ins(gm, c)[r] > 0;
    assert Outs(gm, r.id)[Ref(c, r.inv)] == Ins(gm, c)[Ref(r.id, r.inv)];
  }

  /** A fanout entry has its fanin edge at the consumer, and the consumer exists. */
  lemma FanoutListed(gm: GateMap, p: nat, e: Ref)
    requires Mirror(gm) && Live(gm, p) && e in gm[p].value.fanouts
    ensures Live(gm, e.id) && Ref(p, e.inv) in Fanins(gm[e.id].value.kind)
  {
    assert Outs(gm, p)[e] > 0;
    assert Outs(gm, p)[Ref(e.id, e.inv)] == Ins(gm, e.id)[Ref(p, e.inv)];
  }

  /** The ids of the consumers a fanout list names. */
  function Consumers(fo: seq<Ref>): (s: set<nat>)
    ensures forall e :: e in fo ==> e.id in s
    ensures forall c :: c in s ==> exists e :: e in fo && e.id == c
  {
    set e | e in fo :: e.id
  }

  /** The entries a replacement gate gains: one per former consumer, polarity flipped when x is set. */
  function MapOut(fo: seq<Ref>, x: bool): (r: seq<Ref>)
    ensures |r| == |fo|
    ensures forall k :: 0 <= k < |fo| ==> r[k] == Ref(fo[k].id, x != fo[k].inv)
  {
    seq(|fo|, k requires 0 <= k < |fo| => Ref(fo[k].id, x != fo[k].inv))
  }

  /** One entry's count among the new entries: the count of the former entry with the other polarity. */
  lemma {:induction false} MapOutAt(fo: seq<Ref>, x: bool, c: nat, b: bool)
    ensures multiset(MapOut(fo, x))[Ref(c, b)] == multiset(fo)[Ref(c, x != b)]
  {
    if fo != [] {
      var m := |fo| - 1;
      MapOutAt(fo[..m], x, c, b);
      assert fo == fo[..m] + [fo[m]];
      assert MapOut(fo, x) == MapOut(fo[..m], x) + [Ref(fo[m].id, x != fo[m].inv)];
      assert (Ref(fo[m].id, x != fo[m].inv) == Ref(c, b)) == (fo[m] == Ref(c, x != b));
    }
  }

  /** Every new entry names a former consumer. */
  lemma MapOutConsumers(fo: seq<Ref>, x: bool, e: Ref)
    requires e in MapOut(fo, x)
    ensures e.id in Consumers(fo)
  {
    var k :| 0 <= k < |fo| && MapOut(fo, x)[k] == e;
    assert fo[k] in fo;
  }

  /**
   * `rmRelatingFanouts` of gate g: each fanin of g drops g from its fanout list. Nothing else
   * changes; a gate without fanins (PI, UNDEF, constant) changes nothing.
   */
  function Strip(gm: GateMap, g: nat): (r: GateMap)
    requires Live(gm, g)
    ensures |r| == |gm|
  {
    seq(|gm|, i requires 0 <= i < |gm| =>
      if gm[i].Some? && i in FaninIds(gm[g].value.kind) then
        Some(gm[i].value.(fanouts := Without(gm[i].value.fanouts, g)))
      else
        gm[i])
  }

  /** Stripping keeps every slot filled or empty, and every gate's kind. */
  lemma StripKinds(gm: GateMap, g: nat)
    requires Live(gm, g)
    ensures forall i :: Live(Strip(gm, g), i) <==> Live(gm, i)
    ensures forall c: nat :: Ins(Strip(gm, g), c) == Ins(gm, c)
  {
    var s := Strip(gm, g);
    forall c: nat | Live(gm, c)
      ensures Live(s, c) && s[c].value.kind == gm[c].value.kind
    {
    }
  }

  /** The count of one entry in one fanout list after stripping. */
  lemma StripOne(gm: GateMap, g: nat, p: nat, c: nat, b: bool)
    requires Mirror(gm) && Live(gm, g) && Live(gm, p)
    ensures multiset(Strip(gm, g)[p].value.fanouts)[Ref(c, b)] == if c == g then 0 else Outs(gm, p)[Ref(c, b)]
  {
    if p in FaninIds(gm[g].value.kind) {
      WithoutCounts(gm[p].value.fanouts, g);
    } else if c == g {
      assert Outs(gm, p)[Ref(g, b)] == Ins(gm, g)[Ref(p, b)];
    }
  }

  /**
   * One slot after consumers `done` of g have been moved to n: each of them reads n where it read g
   * (polarity flipped when x is set), and n lists one entry per element of `done`.
   */
  function Rewired(gt: Gate, i: nat, g: nat, n: nat, x: bool, done: seq<Ref>): Gate
  {
    var gt1 := if i in Consumers(done) then NewFanin(gt, g, n, x) else gt;
    if i == n then gt1.(fanouts := gt1.fanouts + MapOut(done, x)) else gt1
  }

  function Rewiring(gs: GateMap, g: nat, n: nat, x: bool, done: seq<Ref>): (r: GateMap)
    ensures |r| == |gs|
    ensures forall i :: Live(r, i) <==> Live(gs, i)
  {
    seq(|gs|, i requires 0 <= i < |gs| => if gs[i].None? then None else Some(Rewired(gs[i].value, i, g, n, x, done)))
  }

  /**
   * Gate g replaced by gate n with polarity x, as `trivialOpt` and `mergeSTR` do it: g leaves its
   * fanins' fanout lists, every consumer of g reads n instead, n lists each of them, and g's slot
   * becomes empty.
   */
  function Replaced(gm: GateMap, g: nat, n: nat, x: bool): (r: GateMap)
    requires Live(gm, g)
    ensures |r| == |gm|
  {
    var gs := Strip(gm, g);
    Rewiring(gs, g, n, x, gs[g].value.fanouts)[g := None]
  }

  /** One redirected slot reads Ref(p, b) when it already did (and p is not g) or when it read g with the matching polarity. */
  lemma RedirectHit(f: Ref, g: nat, n: nat, x: bool, p: nat, b: bool)
    requires n != g
    ensures (Redirect(f, g, n, x) == Ref(p, b)) ==
            (p != g && (f == Ref(p, b) || (p == n && f == Ref(g, b != x))))
  {
  }

  /** Occurrences of y among two slots. */
  lemma PairCount(h1: Ref, h2: Ref, y: Ref)
    ensures multiset([h1, h2])[y] == (if h1 == y then 1 else 0) + (if h2 == y then 1 else 0)
  {
    assert multiset([h1, h2]) == multiset{h1} + multiset{h2};
  }

  /** How `newFanin` changes a consumer's count of one reference (a PO consumer is known to read g). */
  lemma NewFaninCount(gt: Gate, g: nat, n: nat, x: bool, p: nat, b: bool)
    requires n != g
    requires gt.kind.Aig? || (gt.kind.Po? && gt.kind.fanin.id == g)
    ensures multiset(Fanins(NewFanin(gt, g, n, x).kind))[Ref(p, b)] ==
            if p == g then 0
            else multiset(Fanins(gt.kind))[Ref(p, b)] + if p == n then multiset(Fanins(gt.kind))[Ref(g, b != x)] else 0
  {
    if gt.kind.Aig? {
      var f1, f2 := gt.kind.fanin1, gt.kind.fanin2;
      var h1, h2 := Redirect(f1, g, n, x), Redirect(f2, g, n, x);
      assert Fanins(NewFanin(gt, g, n, x).kind) == [h1, h2];
      assert Fanins(gt.kind) == [f1, f2];
      RedirectHit(f1, g, n, x, p, b);
      RedirectHit(f2, g, n, x, p, b);
      PairCount(h1, h2, Ref(p, b));
      PairCount(f1, f2, Ref(p, b));
      PairCount(f1, f2, Ref(g, b != x));
    } else {
      var f := gt.kind.fanin;
      assert Fanins(NewFanin(gt, g, n, x).kind) == [Ref(n, x != f.inv)];
      assert Fanins(gt.kind) == [f];
    }
  }

  /** One consumer's count in g's fanout list after stripping: how often it reads g. */
  lemma StrippedFanout(gm: GateMap, g: nat, c: nat, b: bool)
    requires Mirror(gm) && Live(gm, g)
    ensures multiset(Strip(gm, g)[g].value.fanouts)[Ref(c, b)] == if c == g then 0 else Ins(gm, c)[Ref(g, b)]
  {
    StripOne(gm, g, g, c, b);
    assert Outs(gm, g)[Ref(c, b)] == Ins(gm, c)[Ref(g, b)];
  }

  /** The consumers g lists after stripping are the gates that read it. */
  lemma StrippedFanouts(gm: GateMap, g: nat)
    requires Mirror(gm) && Live(gm, g)
    ensures forall c: nat, b: bool ::
              (multiset(Strip(gm, g)[g].value.fanouts)[Ref(c, b)] == if c == g then 0 else Ins(gm, c)[Ref(g, b)])
  {
    forall c: nat, b: bool
      ensures multiset(Strip(gm, g)[g].value.fanouts)[Ref(c, b)] == if c == g then 0 else Ins(gm, c)[Ref(g, b)]
    {
      StrippedFanout(gm, g, c, b);
    }
  }

  /** A consumer of g (after stripping) is an AND gate or a PO reading g. */
  lemma ConsumerReads(gm: GateMap, g: nat, c: nat)
    requires Mirror(gm) && Live(gm, g)
    requires c in Consumers(Strip(gm, g)[g].value.fanouts)
    ensures c != g && Live(gm, c)
    ensures gm[c].value.kind.Aig? || (gm[c].value.kind.Po? && gm[c].value.kind.fanin.id == g)
  {
    var fo := Strip(gm, g)[g].value.fanouts;
    var e :| e in fo && e.id == c;
    StrippedFanouts(gm, g);
    assert multiset(fo)[e] > 0;
    assert c != g && Ins(gm, c)[Ref(g, e.inv)] > 0;
    assert Ref(g, e.inv) in Fanins(gm[c].value.kind);
  }

  /** A gate that is not a consumer of g does not read g. */
  lemma NonConsumerIgnores(gm: GateMap, g: nat, c: nat, b: bool)
    requires Mirror(gm) && Live(gm, g) && c != g
    requires c !in Consumers(Strip(gm, g)[g].value.fanouts)
    ensures Ins(gm, c)[Ref(g, b)] == 0
  {
    var fo := Strip(gm, g)[g].value.fanouts;
    StrippedFanouts(gm, g);
    assert multiset(fo)[Ref(c, b)] == 0;
  }

  /** What a replacement leaves in a slot other than g's. */
  lemma ReplacedSlot(gm: GateMap, g: nat, n: nat, x: bool, i: nat)
    requires Live(gm, g) && Live(gm, i) && i != g
    ensures Live(Replaced(gm, g, n, x), i)
    ensures Replaced(gm, g, n, x)[i].value ==
            Rewired(Strip(gm, g)[i].value, i, g, n, x, Strip(gm, g)[g].value.fanouts)
    ensures Strip(gm, g)[i].value.kind == gm[i].value.kind
  {
  }

  /** A gate's count of one fanin reference after a replacement. */
  lemma ReplacedIns(gm: GateMap, g: nat, n: nat, x: bool, c: nat, p: nat, b: bool)
    requires Mirror(gm) && Live(gm, g) && Live(gm, n) && n != g && c != g && Live(gm, c)
    ensures Ins(Replaced(gm, g, n, x), c)[Ref(p, b)] ==
            if p == g then 0 else Ins(gm, c)[Ref(p, b)] + if p == n then Ins(gm, c)[Ref(g, b != x)] else 0
  {
    var gs := Strip(gm, g);
    var fo := gs[g].value.fanouts;
    var gt := gs[c].value;
    ReplacedSlot(gm, g, n, x, c);
    var r := Replaced(gm, g, n, x);
    assert Ins(r, c) == multiset(Fanins(r[c].value.kind));
    assert Ins(gm, c) == multiset(Fanins(gt.kind));
    if c in Consumers(fo) {
      ConsumerReads(gm, g, c);
    } else {
      NonConsumerIgnores(gm, g, c, b != x);
      NonConsumerIgnores(gm, g, c, b);
    }
    RewiredIns(gt, c, g, n, x, fo, p, b);
  }

  /** The count of one reference among a slot's fanins after rewiring, from what the slot read before. */
  lemma RewiredIns(gt: Gate, c: nat, g: nat, n: nat, x: bool, fo: seq<Ref>, p: nat, b: bool)
    requires n != g
    requires c in Consumers(fo) ==> gt.kind.Aig? || (gt.kind.Po? && gt.kind.fanin.id == g)
    requires c !in Consumers(fo) ==>
      multiset(Fanins(gt.kind))[Ref(g, b)] == 0 && multiset(Fanins(gt.kind))[Ref(g, b != x)] == 0
    ensures multiset(Fanins(Rewired(gt, c, g, n, x, fo).kind))[Ref(p, b)] ==
            if p == g then 0
            else multiset(Fanins(gt.kind))[Ref(p, b)] + if p == n then multiset(Fanins(gt.kind))[Ref(g, b != x)] else 0
  {
    if c in Consumers(fo) {
      assert Rewired(gt, c, g, n, x, fo).kind == NewFanin(gt, g, n, x).kind;
      NewFaninCount(gt, g, n, x, p, b);
    } else {
      assert Rewired(gt, c, g, n, x, fo).kind == gt.kind;
    }
  }

  /** How the fanout list of one slot changes when consumers `fo` of g are moved to n. */
  lemma RewiredOuts(gt: Gate, p: nat, g: nat, n: nat, x: bool, fo: seq<Ref>, c: nat, b: bool)
    ensures multiset(Rewired(gt, p, g, n, x, fo).fanouts)[Ref(c, b)] ==
            multiset(gt.fanouts)[Ref(c, b)] + if p == n then multiset(fo)[Ref(c, x != b)] else 0
  {
    var rf := Rewired(gt, p, g, n, x, fo).fanouts;
    if p == n {
      assert rf == gt.fanouts + MapOut(fo, x);
      MapOutAt(fo, x, c, b);
    } else {
      assert rf == gt.fanouts;
    }
  }

  /** A gate's count of one fanout entry after a replacement. */
  lemma ReplacedOuts(gm: GateMap, g: nat, n: nat, x: bool, p: nat, c: nat, b: bool)
    requires Mirror(gm) && Live(gm, g) && Live(gm, n) && n != g && p != g && Live(gm, p)
    ensures Outs(Replaced(gm, g, n, x), p)[Ref(c, b)] ==
            if c == g then 0 else Outs(gm, p)[Ref(c, b)] + if p == n then Ins(gm, c)[Ref(g, x != b)] else 0
  {
    var gs := Strip(gm, g);
    ReplacedSlot(gm, g, n, x, p);
    RewiredOuts(gs[p].value, p, g, n, x, gs[g].value.fanouts, c, b);
    StripOne(gm, g, p, c, b);
    StrippedFanout(gm, g, c, x != b);
  }

  /** Replacing a gate keeps fanouts mirroring fanins. */
  lemma ReplacedMirror(gm: GateMap, g: nat, n: nat, x: bool)
    requires Mirror(gm) && Live(gm, g) && Live(gm, n) && n != g
    ensures Mirror(Replaced(gm, g, n, x))
  {
    var r := Replaced(gm, g, n, x);
    forall p: nat, c: nat, b: bool
      ensures Outs(r, p)[Ref(c, b)] == Ins(r, c)[Ref(p, b)]
    {
      ReplacedPair(gm, g, n, x, p, c, b);
    }
  }

  /** A replacement empties g's slot and keeps every other slot filled or empty as it was. */
  lemma ReplacedLive(gm: GateMap, g: nat, n: nat, x: bool, i: nat)
    requires Live(gm, g)
    ensures Live(Replaced(gm, g, n, x), i) <==> Live(gm, i) && i != g
  {
    if i < |gm| && i != g {
      assert Strip(gm, g)[i].Some? == gm[i].Some?;
    }
  }

  /** The mirror count of one pair where both gates survive the replacement. */
  lemma PairBothLive(gm: GateMap, g: nat, n: nat, x: bool, p: nat, c: nat, b: bool)
    requires Mirror(gm) && Live(gm, g) && Live(gm, n) && n != g
    requires Live(gm, p) && p != g && Live(gm, c) && c != g
    ensures Outs(Replaced(gm, g, n, x), p)[Ref(c, b)] == Ins(Replaced(gm, g, n, x), c)[Ref(p, b)]
  {
    ReplacedOuts(gm, g, n, x, p, c, b);
    ReplacedIns(gm, g, n, x, c, p, b);
    assert Outs(gm, p)[Ref(c, b)] == Ins(gm, c)[Ref(p, b)];
  }

  /** The mirror count of one pair where only the producer p survives: p lists nothing for c. */
  lemma PairProducerLive(gm: GateMap, g: nat, n: nat, x: bool, p: nat, c: nat, b: bool)
    requires Mirror(gm) && Live(gm, g) && Live(gm, n) && n != g
    requires Live(gm, p) && p != g && !(Live(gm, c) && c != g)
    ensures Outs(Replaced(gm, g, n, x), p)[Ref(c, b)] == 0
  {
    ReplacedOuts(gm, g, n, x, p, c, b);
    if c != g {
      assert Outs(gm, p)[Ref(c, b)] == Ins(gm, c)[Ref(p, b)];
    }
  }

  /** The mirror count of one pair where only the consumer c survives: c reads nothing of p. */
  lemma PairConsumerLive(gm: GateMap, g: nat, n: nat, x: bool, p: nat, c: nat, b: bool)
    requires Mirror(gm) && Live(gm, g) && Live(gm, n) && n != g
    requires Live(gm, c) && c != g && !(Live(gm, p) && p != g)
    ensures Ins(Replaced(gm, g, n, x), c)[Ref(p, b)] == 0
  {
    ReplacedIns(gm, g, n, x, c, p, b);
    if p != g {
      assert Outs(gm, p)[Ref(c, b)] == Ins(gm, c)[Ref(p, b)];
    }
  }

  lemma ReplacedPair(gm: GateMap, g: nat, n: nat, x: bool, p: nat, c: nat, b: bool)
    requires Mirror(gm) && Live(gm, g) && Live(gm, n) && n != g
    ensures Outs(Replaced(gm, g, n, x), p)[Ref(c, b)] == Ins(Replaced(gm, g, n, x), c)[Ref(p, b)]
  {
    ReplacedLive(gm, g, n, x, p);
    ReplacedLive(gm, g, n, x, c);
    var pl := Live(gm, p) && p != g;
    var cl := Live(gm, c) && c != g;
    if pl && cl {
      PairBothLive(gm, g, n, x, p, c, b);
    } else if pl {
      PairProducerLive(gm, g, n, x, p, c, b);
    } else if cl {
      PairConsumerLive(gm, g, n, x, p, c, b);
    }
  }

  /** Removing the entries of t twice removes nothing more. */
  lemma {:induction false} WithoutTwice(fs: seq<Ref>, t: nat)
    ensures Without(Without(fs, t), t) == Without(fs, t)
  {
    if fs != [] {
      WithoutTwice(fs[1..], t);
      var rest := Without(fs[1..], t);
      if fs[0].id != t {
        var s := [fs[0]] + rest;
        assert Without(fs, t) == s;
        assert s != [] && s[0] == fs[0] && s[1..] == rest;
        assert Without(s, t) == [fs[0]] + Without(rest, t);
      } else {
        assert Without(fs, t) == [] + rest == rest;
      }
    }
  }

  /** Redirecting g to n twice redirects nothing more: after the first, no AND slot reads g. */
  lemma NewFaninTwice(gt: Gate, g: nat, n: nat, x: bool)
    requires n != g && !gt.kind.Po?
    ensures NewFanin(NewFanin(gt, g, n, x), g, n, x) == NewFanin(gt, g, n, x)
  {
  }

  /**
   * One pass of the loop of `trivialOpt` and `mergeSTR` over g's fanout entry e: the consumer
   * redirects its slots from g to n, and n lists the consumer with the combined polarity.
   */
  function RewireEntry(gm: GateMap, g: nat, n: nat, x: bool, e: Ref): (r: GateMap)
    requires Live(gm, n)
    ensures |r| == |gm|
  {
    var gm1 := if Live(gm, e.id) then gm[e.id := Some(NewFanin(gm[e.id].value, g, n, x))] else gm;
    gm1[n := Some(SetFanout(gm1[n].value, Ref(e.id, x != e.inv)).1)]
  }

  lemma ConsumersSnoc(done: seq<Ref>, e: Ref)
    ensures Consumers(done + [e]) == Consumers(done) + {e.id}
  {
  }

  lemma MapOutSnoc(done: seq<Ref>, e: Ref, x: bool)
    ensures MapOut(done + [e], x) == MapOut(done, x) + [Ref(e.id, x != e.inv)]
  {
  }

  /** One gate through one pass of the loop: the same as rewiring it with one more consumer done. */
  lemma RewiredStep(gt: Gate, i: nat, g: nat, n: nat, x: bool, done: seq<Ref>, e: Ref)
    requires n != g && (i == n ==> !gt.kind.Po?)
    requires gt.kind.Po? && i == e.id ==> e.id !in Consumers(done)
    ensures var cur := Rewired(gt, i, g, n, x, done);
            var after := if i == e.id then NewFanin(cur, g, n, x) else cur;
            (if i == n then SetFanout(after, Ref(e.id, x != e.inv)).1 else after) == Rewired(gt, i, g, n, x, done + [e])
  {
    ConsumersSnoc(done, e);
    var c := e.id;
    var gt1 := if i in Consumers(done) then NewFanin(gt, g, n, x) else gt;
    var gt2 := if i == c then NewFanin(gt, g, n, x) else gt1;
    if i == c && c in Consumers(done) {
      NewFaninTwice(gt, g, n, x);
    }
    var cur := Rewired(gt, i, g, n, x, done);
    var after := if i == c then NewFanin(cur, g, n, x) else cur;
    assert after == if i == n then gt2.(fanouts := gt.fanouts + MapOut(done, x)) else gt2;
    if i == n {
      FanoutSnoc(after, gt2, gt.fanouts, done, e, x);
    }
  }

  /** Listing one more consumer at the replacement gate extends its new entries by one. */
  lemma FanoutSnoc(after: Gate, gt2: Gate, fs: seq<Ref>, done: seq<Ref>, e: Ref, x: bool)
    requires after == gt2.(fanouts := fs + MapOut(done, x)) && !after.kind.Po?
    ensures SetFanout(after, Ref(e.id, x != e.inv)).1 == gt2.(fanouts := fs + MapOut(done + [e], x))
  {
    MapOutSnoc(done, e, x);
    var r := Ref(e.id, x != e.inv);
    assert fs + MapOut(done, x) + [r] == fs + MapOut(done + [e], x);
  }

  /** One slot of RewiringStep. */
  lemma RewiringSlot(gs: GateMap, g: nat, n: nat, x: bool, done: seq<Ref>, e: Ref, i: nat)
    requires n != g && Live(gs, n) && !gs[n].value.kind.Po? && i < |gs|
    requires Live(gs, e.id) && gs[e.id].value.kind.Po? ==> e.id !in Consumers(done)
    ensures RewireEntry(Rewiring(gs, g, n, x, done), g, n, x, e)[i] == Rewiring(gs, g, n, x, done + [e])[i]
  {
    if gs[i].Some? {
      RewiredStep(gs[i].value, i, g, n, x, done, e);
    }
  }

  /** The loop of `trivialOpt` and `mergeSTR`, one fanout entry further. */
  lemma RewiringStep(gs: GateMap, g: nat, n: nat, x: bool, fo: seq<Ref>, k: nat)
    requires k < |fo| && n != g && Live(gs, n) && !gs[n].value.kind.Po?
    requires Live(gs, fo[k].id) && gs[fo[k].id].value.kind.Po? ==> fo[k].id !in Consumers(fo[..k])
    ensures RewireEntry(Rewiring(gs, g, n, x, fo[..k]), g, n, x, fo[k]) == Rewiring(gs, g, n, x, fo[..k + 1])
  {
    assert fo[..k + 1] == fo[..k] + [fo[k]];
    forall i | 0 <= i < |gs|
      ensures RewireEntry(Rewiring(gs, g, n, x, fo[..k]), g, n, x, fo[k])[i] == Rewiring(gs, g, n, x, fo[..k] + [fo[k]])[i]
    {
      RewiringSlot(gs, g, n, x, fo[..k], fo[k], i);
    }
  }

  /** A PO's count of a reference: one when it is the PO's fanin. */
  lemma PoIns(gm: GateMap, c: nat, r: Ref)
    ensures Live(gm, c) && gm[c].value.kind.Po? ==> Ins(gm, c)[r] == if gm[c].value.kind.fanin == r then 1 else 0
  {
    if Live(gm, c) && gm[c].value.kind.Po? {
      assert Fanins(gm[c].value.kind) == [gm[c].value.kind.fanin];
    }
  }

  /** Two positions of a list count twice when they hold the same entry. */
  lemma TwoPositions<T>(s: seq<T>, j: nat, l: nat)
    ensures j < l < |s| ==> multiset(s)[s[j]] >= 1 && multiset(s)[s[l]] >= if s[j] == s[l] then 2 else 1
  {
    if j < l < |s| {
      assert s == s[..l] + s[l..];
      assert s[j] in s[..l] && s[l] in s[l..];
      assert multiset(s)[s[l]] == multiset(s[..l])[s[l]] + multiset(s[l..])[s[l]];
    }
  }

  /** A PO reads one gate once, so a list bounded by g's readers names a PO consumer at most once. */
  lemma PoListedOnce(gm: GateMap, g: nat, fo: seq<Ref>, j: nat, l: nat)
    requires forall c: nat, b: bool :: multiset(fo)[Ref(c, b)] <= Ins(gm, c)[Ref(g, b)]
    requires j < l < |fo| && fo[j].id == fo[l].id && Live(gm, fo[l].id)
    ensures !gm[fo[l].id].value.kind.Po?
  {
    var c := fo[l].id;
    PoIns(gm, c, Ref(g, fo[j].inv));
    PoIns(gm, c, Ref(g, fo[l].inv));
    TwoPositions(fo, j, l);
    assert fo[j] == Ref(c, fo[j].inv) && fo[l] == Ref(c, fo[l].inv);
  }

  /** `removeFanout(t)` on the gate in slot p, when there is one. */
  function DropFanouts(gm: GateMap, p: nat, t: nat): (r: GateMap)
    ensures |r| == |gm|
  {
    if Live(gm, p) then gm[p := Some(gm[p].value.(fanouts := Without(gm[p].value.fanouts, t)))] else gm
  }

  /** `rmRelatingFanouts` as the gate classes do it: one `removeFanout` per fanin slot. */
  lemma StripSteps(gm: GateMap, g: nat)
    requires Live(gm, g)
    ensures gm[g].value.kind.Aig? ==>
      Strip(gm, g) == DropFanouts(DropFanouts(gm, gm[g].value.kind.fanin1.id, g), gm[g].value.kind.fanin2.id, g)
    ensures gm[g].value.kind.Po? ==> Strip(gm, g) == DropFanouts(gm, gm[g].value.kind.fanin.id, g)
    ensures !gm[g].value.kind.Aig? && !gm[g].value.kind.Po? ==> Strip(gm, g) == gm
  {
    var k := gm[g].value.kind;
    if k.Aig? {
      var r := DropFanouts(DropFanouts(gm, k.fanin1.id, g), k.fanin2.id, g);
      assert Fanins(k) == [k.fanin1, k.fanin2];
      forall i | 0 <= i < |gm|
        ensures Strip(gm, g)[i] == r[i]
      {
        if gm[i].Some? && i == k.fanin1.id && i == k.fanin2.id {
          WithoutTwice(gm[i].value.fanouts, g);
        }
      }
    } else if k.Po? {
      assert Fanins(k) == [k.fanin];
    }
  }

  /** Before the loop's first pass nothing is rewired. */
  lemma RewiringNone(gs: GateMap, g: nat, n: nat, x: bool)
    ensures Rewiring(gs, g, n, x, []) == gs
  {
    assert Consumers([]) == {};
    forall i | 0 <= i < |gs| && gs[i].Some?
      ensures Rewired(gs[i].value, i, g, n, x, []) == gs[i].value
    {
      assert gs[i].value.fanouts + MapOut([], x) == gs[i].value.fanouts;
    }
  }

  /** After stripping, g's fanout list names each PO consumer at most once. */
  lemma StrippedPoOnce(gm: GateMap, g: nat)
    requires Mirror(gm) && Live(gm, g)
    ensures var s := Strip(gm, g); var fo := s[g].value.fanouts;
      forall j, l :: 0 <= j < l < |fo| && fo[j].id == fo[l].id && Live(s, fo[l].id) ==> !s[fo[l].id].value.kind.Po?
  {
    var s := Strip(gm, g);
    var fo := s[g].value.fanouts;
    StrippedFanouts(gm, g);
    StripKinds(gm, g);
    assert forall c: nat, b: bool :: multiset(fo)[Ref(c, b)] <= Ins(s, c)[Ref(g, b)];
    forall j, l | 0 <= j < l < |fo| && fo[j].id == fo[l].id && Live(s, fo[l].id)
      ensures !s[fo[l].id].value.kind.Po?
    {
      PoListedOnce(s, g, fo, j, l);
    }
  }
}
