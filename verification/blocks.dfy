/**
 * Grouping of input lines into blank-line separated blocks. Both converters
 * group this way: tagged-token lines into sentences, rationale lines into
 * rationale entries. A line is a separator (Break), a line that belongs to no
 * block and does not end one (Skip), or content (Item).
 */
module Blocks {

  datatype Piece<T> = Break | Skip | Item(value: T)

  /** The blocks closed so far and the content of the block still open. */
  datatype Grouping<T> = Grouping(done: seq<seq<T>>, pending: seq<T>)

  /** One piece: a separator closes the open block if it has content. */
  function Advance<T>(g: Grouping<T>, p: Piece<T>): Grouping<T> {
    match p
    case Break => if g.pending == [] then g else Grouping(g.done + [g.pending], [])
    case Skip => g
    case Item(x) => Grouping(g.done, g.pending + [x])
  }

  /** Grouping reached from g after the pieces ps, one piece at a time. */
  function GroupFrom<T>(g: Grouping<T>, ps: seq<Piece<T>>): (r: Grouping<T>)
    ensures (forall i :: 0 <= i < |g.done| ==> g.done[i] != []) ==>
              forall i :: 0 <= i < |r.done| ==> r.done[i] != []
  {
    if ps == [] then g else Advance(GroupFrom(g, ps[..|ps| - 1]), ps[|ps| - 1])
  }

  function Group<T>(ps: seq<Piece<T>>): Grouping<T> {
    GroupFrom(Grouping([], []), ps)
  }

  /** The blocks of ps, the open one included when it has content. */
  function BlocksOf<T>(ps: seq<Piece<T>>): (bs: seq<seq<T>>)
    ensures forall i :: 0 <= i < |bs| ==> bs[i] != []
  {
    var g := Group(ps);
    g.done + if g.pending == [] then [] else [g.pending]
  }

  /** The content of ps, in order. */
  function Items<T>(ps: seq<Piece<T>>): seq<T> {
    if ps == [] then []
    else Items(ps[..|ps| - 1]) + if ps[|ps| - 1].Item? then [ps[|ps| - 1].value] else []
  }

  function Flatten<T>(bs: seq<seq<T>>): seq<T> {
    if bs == [] then [] else Flatten(bs[..|bs| - 1]) + bs[|bs| - 1]
  }

  predicate NoBreak<T>(ps: seq<Piece<T>>) {
    forall i :: 0 <= i < |ps| ==> !ps[i].Break?
  }

  lemma FlattenAppend<T>(bs: seq<seq<T>>, b: seq<T>)
    ensures Flatten(bs + [b]) == Flatten(bs) + b
  {
    assert (bs + [b])[..|bs|] == bs;
  }

  lemma {:induction false} ItemsAppend<T>(a: seq<Piece<T>>, b: seq<Piece<T>>)
    ensures Items(a + b) == Items(a) + Items(b)
    decreases |b|
  {
    if b == [] {
      assert a + b == a;
    } else {
      var b' := b[..|b| - 1];
      assert (a + b)[..|a + b| - 1] == a + b';
      ItemsAppend(a, b');
    }
  }

  /** Processing a + b is processing a, then b. */
  lemma {:induction false} GroupFromAppend<T>(g: Grouping<T>, a: seq<Piece<T>>, b: seq<Piece<T>>)
    ensures GroupFrom(g, a + b) == GroupFrom(GroupFrom(g, a), b)
    decreases |b|
  {
    if b == [] {
      assert a + b == a;
    } else {
      var b' := b[..|b| - 1];
      assert (a + b)[..|a + b| - 1] == a + b';
      GroupFromAppend(g, a, b');
    }
  }

  /** Blocks closed before a starting point are carried along unchanged. */
  lemma {:induction false} GroupFromShift<T>(d: seq<seq<T>>, ps: seq<Piece<T>>)
    ensures GroupFrom(Grouping(d, []), ps) == Grouping(d + Group(ps).done, Group(ps).pending)
  {
    if ps != [] {
      GroupFromShift(d, ps[..|ps| - 1]);
      var h := Group(ps[..|ps| - 1]);
      assert d + (h.done + [h.pending]) == (d + h.done) + [h.pending];
    }
  }

  /**
   * The content of every piece lands in exactly one block, in order: the
   * blocks, concatenated, are the content of the input.
   */
  lemma {:induction false} GroupKeepsItems<T>(ps: seq<Piece<T>>)
    ensures Flatten(Group(ps).done) + Group(ps).pending == Items(ps)
  {
    if ps != [] {
      var ps' := ps[..|ps| - 1];
      GroupKeepsItems(ps');
      var h := Group(ps');
      if ps[|ps| - 1].Break? && h.pending != [] {
        FlattenAppend(h.done, h.pending);
      }
    }
  }

  lemma BlocksPartitionItems<T>(ps: seq<Piece<T>>)
    ensures Flatten(BlocksOf(ps)) == Items(ps)
    ensures |BlocksOf(ps)| <= |Items(ps)|
  {
    var g := Group(ps);
    GroupKeepsItems(ps);
    if g.pending != [] {
      FlattenAppend(g.done, g.pending);
    } else {
      assert BlocksOf(ps) == g.done;
    }
    FlattenLength(BlocksOf(ps));
  }

  /** Non-empty blocks hold at least one element each. */
  lemma {:induction false} FlattenLength<T>(bs: seq<seq<T>>)
    requires forall i :: 0 <= i < |bs| ==> bs[i] != []
    ensures |bs| <= |Flatten(bs)|
  {
    if bs != [] {
      FlattenLength(bs[..|bs| - 1]);
    }
  }

  /** A separator splits the input: the blocks before it and after it never merge. */
  lemma BlocksSplitAtBreak<T>(a: seq<Piece<T>>, b: seq<Piece<T>>)
    ensures BlocksOf(a + [Break] + b) == BlocksOf(a) + BlocksOf(b)
  {
    var e := Grouping([], []);
    GroupFromAppend(e, a + [Break], b);
    GroupFromAppend(e, a, [Break]);
    assert GroupFrom(e, a + [Break]) == Grouping(BlocksOf(a), []);
    GroupFromShift(BlocksOf(a), b);
  }

  /** A skipped piece neither belongs to a block nor closes one. */
  lemma SkipIsInvisible<T>(a: seq<Piece<T>>, b: seq<Piece<T>>)
    ensures BlocksOf(a + [Skip] + b) == BlocksOf(a + b)
  {
    var e := Grouping([], []);
    GroupFromAppend(e, a + [Skip], b);
    GroupFromAppend(e, a, [Skip]);
    GroupFromAppend(e, a, b);
  }

  /** Without a separator, all content forms one block (or none, if there is no content). */
  lemma {:induction false} NoBreakOneBlock<T>(ps: seq<Piece<T>>)
    requires NoBreak(ps)
    ensures Group(ps) == Grouping([], Items(ps))
  {
    if ps != [] {
      NoBreakOneBlock(ps[..|ps| - 1]);
    }
  }

  lemma {:induction false} ItemsMember<T>(ps: seq<Piece<T>>, x: T)
    requires x in Items(ps)
    ensures Item(x) in ps
  {
    var q := ps[..|ps| - 1];
    if x in Items(q) {
      ItemsMember(q, x);
      assert forall p :: p in q ==> p in ps;
    }
  }

  lemma {:induction false} FlattenMember<T>(bs: seq<seq<T>>, i: nat, j: nat)
    requires i < |bs| && j < |bs[i]|
    ensures bs[i][j] in Flatten(bs)
  {
    if i < |bs| - 1 {
      FlattenMember(bs[..|bs| - 1], i, j);
    }
  }

  lemma {:induction false} ItemsHasItem<T>(ps: seq<Piece<T>>, k: nat)
    requires k < |ps| && ps[k].Item?
    ensures ps[k].value in Items(ps)
  {
    var q := ps[..|ps| - 1];
    if k < |ps| - 1 {
      ItemsHasItem(q, k);
    }
  }
}
