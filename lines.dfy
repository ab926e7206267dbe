/**
 * The lines of a run of texts: what `split('\n')` gives for a document
 * built by joining texts, some of which hold several lines themselves.
 */
module Lines {
  import opened Text

  /** The lines of each text in turn. */
  function SplitAll(ls: seq<string>): seq<string>
  {
    FlatMap(Split, ls)
  }

  lemma FlatMapOne<T>(f: T -> seq<string>, x: T)
    ensures FlatMap(f, [x]) == f(x)
  {
    assert [x][..0] == [];
  }

  /** Joining texts with newlines and splitting again gives the lines of each text. */
  lemma {:induction false} SplitJoinAll(ls: seq<string>)
    requires ls != []
    decreases |ls|
    ensures Split(Join(ls)) == SplitAll(ls)
  {
    var x := ls[0];
    var rest := ls[1..];
    assert ls == [x] + rest;
    FlatMapAppend(Split, [x], rest);
    FlatMapOne(Split, x);
    if rest != [] {
      SplitJoinAll(rest);
      calc {
        Split(Join(ls));
        { assert Join(ls) == x + "\n" + Join(rest); }
        Split(x + "\n" + Join(rest));
        { SplitAround(x, Join(rest)); }
        Split(x) + FlatMap(Split, rest);
      }
    } else {
      assert Join(ls) == x;
    }
  }

  /** The lines of a written block: those of each text, then the empty piece after the last newline. */
  lemma SplitBlock(ls: seq<string>)
    requires ls != []
    ensures Split(Block(ls)) == SplitAll(ls) + [""]
  {
    BlockIsJoin(ls);
    SplitJoinAll(ls);
    assert Join(ls) + "\n" == Join(ls) + "\n" + "";
    SplitAround(Join(ls), "");
  }

  /** Texts without a newline are their own lines. */
  lemma SplitAllPlain(ls: seq<string>)
    requires forall i :: 0 <= i < |ls| ==> NoNewline(ls[i])
    ensures SplitAll(ls) == ls
  {
    forall i | 0 <= i < |ls| ensures Split(ls[i]) == [ls[i]] {
      SplitNoNewline(ls[i]);
    }
    FlatMapSingle(Split, ls);
  }

  lemma {:induction false} FlatMapSingle(f: string -> seq<string>, ls: seq<string>)
    requires forall i :: 0 <= i < |ls| ==> f(ls[i]) == [ls[i]]
    decreases |ls|
    ensures FlatMap(f, ls) == ls
  {
    if ls != [] {
      var m := |ls| - 1;
      var init := ls[..m];
      assert forall i :: 0 <= i < |init| ==> init[i] == ls[i];
      FlatMapSingle(f, init);
      assert ls == init + [ls[m]];
    }
  }
}
