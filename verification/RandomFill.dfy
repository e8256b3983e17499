/**
 What the random index means to a user of the cache: it names a block of the set, so
 misses with different indices replace different blocks.
 */
module RandomFill {
  import opened Sequences
  import opened SetAssoc
  import opened CacheBlocks
  import opened CacheSteps
  import opened CacheObject
  import opened CacheResidents

  /** The block array of a set holds each of its blocks once, and shows which tags it has. */
  lemma HoldsByBlock(ws: WaySet, tag: nat)
    requires ws.Valid()
    ensures Distinct(ws.blks) && (set b | b in ws.blks) == ws.repr
    ensures Holds(ws.lines, tag)
            <==> exists j :: 0 <= j < |ws.blks| && Content(ws.blks[j]).valid && Content(ws.blks[j]).tag == tag
  {
    forall b | b in ws.repr
      ensures b in ws.blks && b in ws.order
    {
      Cover(ws.repr, ws.blks, b);
      Cover(ws.repr, ws.order, b);
    }
    if Holds(ws.lines, tag) {
      var i :| 0 <= i < |ws.lines| && ws.lines[i].valid && ws.lines[i].tag == tag;
      assert ws.order[i] in ws.blks;
      var j :| 0 <= j < |ws.blks| && ws.blks[j] == ws.order[i];
      assert Content(ws.blks[j]) == ws.lines[i];
    }
    if j :| 0 <= j < |ws.blks| && Content(ws.blks[j]).valid && Content(ws.blks[j]).tag == tag {
      assert ws.blks[j] in ws.order;
      var i :| 0 <= i < |ws.order| && ws.order[i] == ws.blks[j];
      assert ws.lines[i] == Content(ws.blks[j]);
    }
  }

  /** Two random indices name the same block exactly if they are the same. */
  lemma SameIndexSameBlock(ws: WaySet, a: nat, b: nat)
    requires ws.Valid() && a < |ws.blks| && b < |ws.blks|
    ensures ws.blks[a] == ws.blks[b] <==> a == b
  {
  }

  lemma HitsByBlock(cp: SetAssocCache, addr: Address)
    requires cp.Valid()
    ensures var ws := cp.sets[cp.g.SetOf(addr)];
            && |ws.blks| == cp.g.assoc
            && (Hits(cp.g, cp.Abs(), addr)
                <==> exists j :: 0 <= j < |ws.blks| && Content(ws.blks[j]).valid
                                 && Content(ws.blks[j]).tag == cp.g.Tag(addr))
  {
    var s := cp.g.SetOf(addr);
    assert cp.AtHome(s) && cp.SetOk(s);
    HoldsByBlock(cp.sets[s], cp.g.Tag(addr));
    FindsHeld(cp.table[s], cp.g.Tag(addr));
  }

  /** In a new cache no block is valid. */
  lemma NewIsEmpty(cp: SetAssocCache, s: nat)
    requires cp.Valid() && cp.history == [] && s < |cp.sets|
    ensures forall j :: 0 <= j < |cp.sets[s].blks| ==> !Content(cp.sets[s].blks[j]).valid
  {
    assert cp.AtHome(s) && cp.SetOk(s);
    ReachesAfter(cp.g, [], cp.Abs());
    forall j | 0 <= j < |cp.sets[s].blks|
      ensures !Content(cp.sets[s].blks[j]).valid
    {
      if Content(cp.sets[s].blks[j]).valid {
        HoldsByBlock(cp.sets[s], Content(cp.sets[s].blks[j]).tag);
      }
    }
  }

  /** Addresses of different blocks of one set, which an access of one byte may name. */
  ghost predicate Fillable(g: Geometry, s: nat, addrs: seq<Address>) {
    && g.Valid()
    && (forall i :: 0 <= i < |addrs| ==>
          g.SetOf(addrs[i]) == s && g.Block(addrs[i]) != 0 && SpanOk(g, addrs[i], 1))
    && (forall i, j :: 0 <= i < j < |addrs| ==> g.Block(addrs[i]) != g.Block(addrs[j]))
  }

  /** The first `n` addresses are in the blocks that their indices name; the other blocks are not valid. */
  ghost predicate Filled(cp: SetAssocCache, s: nat, addrs: seq<Address>, picks: seq<nat>, n: nat)
    requires s < |cp.sets| && n <= |addrs| <= |picks|
    reads cp, set b | b in cp.sets[s].blks
  {
    var blks := cp.sets[s].blks;
    && (forall i :: 0 <= i < n ==>
          picks[i] < |blks| && Content(blks[picks[i]]) == Line(cp.g.Tag(addrs[i]), true, false))
    && (forall j :: 0 <= j < |blks| && j !in picks[..n] ==> !Content(blks[j]).valid)
  }

  /** The next block is not there yet. */
  lemma NotYetHere(cp: SetAssocCache, s: nat, addrs: seq<Address>, picks: seq<nat>, i: nat)
    requires cp.Valid() && s < |cp.sets| && i < |addrs| == |picks| && Fillable(cp.g, s, addrs)
    requires Filled(cp, s, addrs, picks, i)
    ensures !Hits(cp.g, cp.Abs(), addrs[i])
  {
    HitsByBlock(cp, addrs[i]);
    var blks := cp.sets[s].blks;
    forall j: nat | j < |blks| && Content(blks[j]).valid
      ensures Content(blks[j]).tag != cp.g.Tag(addrs[i])
    {
      var x: nat :| x < i && picks[x] == j;
      SameBlock(cp.g, addrs[x], addrs[i]);
    }
  }

  /** Read misses to a new set under the Random policy, with different indices in any order: they evict nothing, and all
      the blocks fetched are resident in the end. */
  method FillSet(cp: SetAssocCache, addrs: seq<Address>, picks: seq<nat>) returns (outcomes: seq<Outcome>)
    requires cp.Valid() && cp.history == [] && cp.g.policy == Random
    requires |addrs| == |picks| > 0 && Fillable(cp.g, cp.g.SetOf(addrs[0]), addrs)
    requires Distinct(picks) && forall i :: 0 <= i < |picks| ==> picks[i] < cp.g.assoc
    modifies cp, cp.footprint
    ensures cp.Valid() && |outcomes| == |addrs|
    ensures forall i :: 0 <= i < |addrs| ==> outcomes[i] == Done(false, 0) && Hits(cp.g, cp.Abs(), addrs[i])
  {
    ghost var s := cp.g.SetOf(addrs[0]);
    ghost var footprint := cp.footprint;
    NewIsEmpty(cp, s);
    outcomes := [];
    for i := 0 to |addrs|
      invariant cp.Valid() && cp.footprint == footprint
      invariant Filled(cp, s, addrs, picks, i)
      invariant |outcomes| == i && forall j :: 0 <= j < i ==> outcomes[j] == Done(false, 0)
    {
      var outcome := FillOne(cp, s, addrs, picks, i);
      outcomes := outcomes + [outcome];
    }
    AllHere(cp, s, addrs, picks);
  }

  lemma AllHere(cp: SetAssocCache, s: nat, addrs: seq<Address>, picks: seq<nat>)
    requires cp.Valid() && s < |cp.sets| && |addrs| == |picks| && Fillable(cp.g, s, addrs)
    requires Filled(cp, s, addrs, picks, |addrs|)
    ensures forall i :: 0 <= i < |addrs| ==> Hits(cp.g, cp.Abs(), addrs[i])
  {
    forall i | 0 <= i < |addrs|
      ensures Hits(cp.g, cp.Abs(), addrs[i])
    {
      HitsByBlock(cp, addrs[i]);
      assert Content(cp.sets[s].blks[picks[i]]).valid;
    }
  }

  method FillOne(cp: SetAssocCache, ghost s: nat, addrs: seq<Address>, picks: seq<nat>, i: nat)
    returns (outcome: Outcome)
    requires cp.Valid() && cp.g.policy == Random && s < |cp.sets|
    requires i < |addrs| == |picks| && Fillable(cp.g, s, addrs)
    requires Distinct(picks) && forall i :: 0 <= i < |picks| ==> picks[i] < cp.g.assoc
    requires Filled(cp, s, addrs, picks, i)
    modifies cp, cp.footprint
    ensures cp.Valid() && cp.footprint == old(cp.footprint)
    ensures Filled(cp, s, addrs, picks, i + 1)
    ensures outcome == Done(false, 0)
  {
    NotYetHere(cp, s, addrs, picks, i);
    AlignmentExact(addrs[i], 1);
    HitsByBlock(cp, addrs[i]);
    assert picks[i] !in picks[..i];
    ghost var pick;
    outcome, pick := cp.Access(Read, addrs[i], 1, picks[i]);
    assert picks[..i + 1] == picks[..i] + [picks[i]];
  }
}
