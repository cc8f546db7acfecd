/**
  A deck as the renderer holds it: its parsed entries, the attempts made on
  them and the SM-2 score of each word, with an index from each word to its
  entry. The index is built over the entries and their derivatives, one
  level deep.
*/
module DeckStore {
  import opened Wrappers
  import opened Scheduler
  import Ewl
  import DeckModel

  /** An entry followed by its derivatives, when it has the field. */
  function Group(e: Ewl.Entry): (r: seq<Ewl.Entry>)
    ensures |r| >= 1 && r[0] == e
  {
    [e] + (if e.derivatives.Some? then e.derivatives.value else [])
  }

  /** Every entry, each followed by its derivatives, in order. */
  function Flatten(entries: seq<Ewl.Entry>): (r: seq<Ewl.Entry>)
    ensures |r| >= |entries|
    ensures forall i :: 0 <= i < |entries| ==> entries[i] in r
  {
    if entries == [] then [] else Flatten(entries[..|entries| - 1]) + Group(entries[|entries| - 1])
  }

  /** The number of entries and derivatives: Σ(1 + |derivatives|). */
  function Count(entries: seq<Ewl.Entry>): nat {
    if entries == [] then 0
    else 1 + (if entries[0].derivatives.Some? then |entries[0].derivatives.value| else 0) + Count(entries[1..])
  }

  /** Flattening two runs of entries gives the flattening of the first, then that of the second. */
  lemma {:induction false} FlattenAppend(a: seq<Ewl.Entry>, b: seq<Ewl.Entry>)
    ensures Flatten(a + b) == Flatten(a) + Flatten(b)
    decreases |b|
  {
    if b == [] {
      assert a + b == a;
    } else {
      var c := a + b;
      assert c[..|c| - 1] == a + b[..|b| - 1];
      assert c[|c| - 1] == b[|b| - 1];
      FlattenAppend(a, b[..|b| - 1]);
      var g := Group(b[|b| - 1]);
      calc {
        Flatten(c);
        Flatten(a + b[..|b| - 1]) + g;
        (Flatten(a) + Flatten(b[..|b| - 1])) + g;
        Flatten(a) + (Flatten(b[..|b| - 1]) + g);
      }
    }
  }

  /** The flattened list has one element per entry and per derivative. */
  lemma {:induction false} FlattenLength(entries: seq<Ewl.Entry>)
    ensures |Flatten(entries)| == Count(entries)
  {
    if entries != [] {
      assert entries == [entries[0]] + entries[1..];
      FlattenAppend([entries[0]], entries[1..]);
      assert [entries[0]][..0] == [];
      FlattenLength(entries[1..]);
    }
  }

  /**
    Each entry sits right after everything that precedes it, flattened, and is
    immediately followed by its own derivatives.
  */
  lemma FlattenLayout(entries: seq<Ewl.Entry>, i: nat)
    requires i < |entries|
    ensures var at := |Flatten(entries[..i])|;
            var g := Group(entries[i]);
            at + |g| <= |Flatten(entries)| &&
            Flatten(entries)[at..at + |g|] == g
  {
    assert entries == entries[..i] + [entries[i]] + entries[i + 1..];
    FlattenAppend(entries[..i] + [entries[i]], entries[i + 1..]);
    FlattenAppend(entries[..i], [entries[i]]);
    assert [entries[i]][..0] == [];
    assert Flatten([entries[i]]) == Group(entries[i]);
  }

  /** The index built by assigning `index[e.word] = e` for each entry of `all` in order. */
  function WordIndex(all: seq<Ewl.Entry>): (index: map<string, Ewl.Entry>)
    ensures forall w :: w in index ==> index[w].word == w
  {
    if all == [] then map[] else WordIndex(all[..|all| - 1])[all[|all| - 1].word := all[|all| - 1]]
  }

  /** The index has a key for exactly the words of `all`, and each key maps to the last entry with that word. */
  lemma {:induction false} WordIndexIsLastEntry(all: seq<Ewl.Entry>)
    ensures forall w :: w in WordIndex(all) <==> exists i :: 0 <= i < |all| && all[i].word == w
    ensures forall w :: w in WordIndex(all) ==>
              exists i :: 0 <= i < |all| && all[i] == WordIndex(all)[w] && all[i].word == w &&
                          forall j :: i < j < |all| ==> all[j].word != w
  {
    if all != [] {
      var init := all[..|all| - 1];
      WordIndexIsLastEntry(init);
      forall w ensures w in WordIndex(all) <==> exists i :: 0 <= i < |all| && all[i].word == w {
        assert WordIndex(all) == WordIndex(init)[all[|all| - 1].word := all[|all| - 1]];
        if w in WordIndex(all) && w != all[|all| - 1].word {
          assert w in WordIndex(init);
          var i :| 0 <= i < |init| && init[i].word == w;
          assert all[i].word == w;
        }
        if exists i :: 0 <= i < |all| && all[i].word == w {
          var i :| 0 <= i < |all| && all[i].word == w;
          if i < |init| {
            assert init[i].word == w;
          }
        }
      }
      forall w | w in WordIndex(all)
        ensures exists i :: 0 <= i < |all| && all[i] == WordIndex(all)[w] && all[i].word == w &&
                            forall j :: i < j < |all| ==> all[j].word != w
      {
        assert WordIndex(all) == WordIndex(init)[all[|all| - 1].word := all[|all| - 1]];
        if w != all[|all| - 1].word {
          assert w in WordIndex(init) && WordIndex(init)[w] == WordIndex(all)[w];
          var i :| 0 <= i < |init| && init[i] == WordIndex(init)[w] && init[i].word == w &&
                   forall j :: i < j < |init| ==> init[j].word != w;
          assert all[i] == init[i];
          assert forall j :: i < j < |all| ==> all[j].word != w by {
            forall j | i < j < |all| ensures all[j].word != w {
              if j < |init| {
                assert init[j] == all[j];
              }
            }
          }
        } else {
          assert all[|all| - 1] == WordIndex(all)[w];
        }
      }
    }
  }

  /** The loop of the deck's constructor: `entryMap[e.word] = e` for each entry of `all`, in order. */
  method IndexEntries(all: seq<Ewl.Entry>) returns (index: map<string, Ewl.Entry>)
    ensures index == WordIndex(all)
  {
    index := map[];
    for k := 0 to |all|
      invariant index == WordIndex(all[..k])
    {
      assert all[..k + 1][..k] == all[..k];
      index := index[all[k].word := all[k]];
    }
    assert all[..|all|] == all;
  }

  /** A deck. */
  class Deck {
    var id: string
    var name: string
    var entries: seq<Ewl.Entry>
    /** The creation time, in milliseconds. */
    var createdAt: int
    var attempts: seq<DeckModel.Attempt>
    var scores: map<string, Score>
    var entryMap: map<string, Ewl.Entry>

    /** The index covers every entry and derivative of the deck. */
    predicate Valid()
      reads this
    {
      entryMap == WordIndex(Flatten(entries))
    }

    /**
      `new Deck(id, name, entries = [], createdAt, attempts = [], scores = {})`.
      The default creation time, the current clock, is not modelled: the caller
      passes it.
    */
    constructor (id: string, name: string, entries: seq<Ewl.Entry> := [], createdAt: int,
                 attempts: seq<DeckModel.Attempt> := [], scores: map<string, Score> := map[])
      ensures this.id == id && this.name == name && this.entries == entries && this.createdAt == createdAt
      ensures this.attempts == attempts && this.scores == scores
      ensures Valid()
    {
      this.id := id;
      this.name := name;
      this.entries := entries;
      this.createdAt := createdAt;
      this.attempts := attempts;
      this.scores := scores;
      this.entryMap := map[];
      new;
      var all := GetAllEntries();
      entryMap := IndexEntries(all);
    }

    /** `getAllEntries()`: each entry followed by its derivatives, in order. */
    method GetAllEntries() returns (r: seq<Ewl.Entry>)
      ensures r == Flatten(entries)
    {
      r := [];
      var i := 0;
      while i < |entries|
        invariant 0 <= i <= |entries|
        invariant r == Flatten(entries[..i])
      {
        var e := entries[i];
        ghost var before := r;
        r := r + [e];
        if e.derivatives.Some? {
          var j := 0;
          while j < |e.derivatives.value|
            invariant 0 <= j <= |e.derivatives.value|
            invariant r == before + [e] + e.derivatives.value[..j]
          {
            r := r + [e.derivatives.value[j]];
            j := j + 1;
          }
        }
        assert entries[..i + 1][..i] == entries[..i];
        i := i + 1;
      }
      assert entries[..i] == entries;
    }

    /** `getScore(word)`: the score of the word, or `undefined`. */
    function GetScore(word: string): (r: Option<Score>)
      reads this
      ensures r.Some? <==> word in scores
      ensures r.Some? ==> r.value == scores[word]
    {
      if word in scores then Some(scores[word]) else None
    }

    /** `setScore(word, score)`: the word now has that score; every other word keeps its own. */
    method SetScore(word: string, score: Score)
      modifies this
      ensures GetScore(word) == Some(score)
      ensures forall w :: w != word ==> GetScore(w) == old(GetScore(w))
      ensures scores == old(scores)[word := score]
      ensures id == old(id) && name == old(name) && entries == old(entries) && createdAt == old(createdAt)
      ensures attempts == old(attempts) && entryMap == old(entryMap)
    {
      scores := scores[word := score];
    }

    /** `addAttempt(attempt)`: appends one attempt at the end. */
    method AddAttempt(attempt: DeckModel.Attempt)
      modifies this
      ensures attempts == old(attempts) + [attempt]
      ensures |attempts| == |old(attempts)| + 1 && attempts[..|attempts| - 1] == old(attempts)
      ensures id == old(id) && name == old(name) && entries == old(entries) && createdAt == old(createdAt)
      ensures scores == old(scores) && entryMap == old(entryMap)
    {
      attempts := attempts + [attempt];
    }
  }
}
