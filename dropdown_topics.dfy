/** The topic picker of frontend/src/components/DropdownTopicsAvail.tsx:
    each offered topic is a (title, id) pair, and clicking it toggles the
    title in one list and the id in another. */
module DropdownTopics {
  import Seqs
  import opened DropdownDates

  /** Lines 31-43: both lists are toggled in the same call. */
  function SelectTopic(titles: seq<string>, ids: seq<string>, title: string, id: string): (r: (seq<string>, seq<string>))
    ensures r.0 == Toggle(titles, title)
    ensures r.1 == Toggle(ids, id)
    ensures (title in r.0 <==> title !in titles) && (id in r.1 <==> id !in ids)
  {
    (Toggle(titles, title), Toggle(ids, id))
  }

  /** The offered topics: no two share a title, and no two share an id. */
  predicate OneToOne(options: seq<(string, string)>) {
    forall i, j :: 0 <= i < |options| && 0 <= j < |options| ==>
      (options[i].0 == options[j].0 <==> options[i].1 == options[j].1)
  }

  predicate Distinct(xs: seq<string>) {
    forall i, j :: 0 <= i < j < |xs| ==> xs[i] != xs[j]
  }

  /** The selection is a list of offered pairs, split into two columns. */
  predicate Paired(titles: seq<string>, ids: seq<string>, options: seq<(string, string)>) {
    && |titles| == |ids|
    && Distinct(titles)
    && forall i :: 0 <= i < |titles| ==> (titles[i], ids[i]) in options
  }

  /** Clicking the offered topics in turn. */
  function SelectAll(titles: seq<string>, ids: seq<string>, picks: seq<(string, string)>): (seq<string>, seq<string>)
    decreases |picks|
  {
    if picks == [] then (titles, ids)
    else
      var next := SelectTopic(titles, ids, picks[0].0, picks[0].1);
      SelectAll(next.0, next.1, picks[1..])
  }

  /** Removing a value that occurs once, between `a` and `b`, leaves `a + b`. */
  lemma RemoveAllBetween(a: seq<string>, b: seq<string>, x: string)
    requires x !in a && x !in b
    ensures Seqs.RemoveAll(a + [x] + b, x) == a + b
  {
    Seqs.RemoveAllAppend(a + [x], b, x);
    Seqs.RemoveAllAppend(a, [x], x);
    Seqs.RemoveAllAbsent(a, x);
    Seqs.RemoveAllAbsent(b, x);
    assert Seqs.RemoveAll([x], x) == [];
    assert a + [] == a;
  }

  /** Removing every copy of a value that occurs once, at `i`, removes
      exactly position `i`. */
  lemma RemoveAllOnce(xs: seq<string>, i: int)
    requires 0 <= i < |xs|
    requires xs[i] !in xs[..i] && xs[i] !in xs[i + 1..]
    ensures Seqs.RemoveAll(xs, xs[i]) == xs[..i] + xs[i + 1..]
  {
    RemoveAllBetween(xs[..i], xs[i + 1..], xs[i]);
    assert xs == xs[..i] + [xs[i]] + xs[i + 1..];
  }

  /** A value that occurs once, at `i`, is neither before nor after `i`. */
  lemma AbsentOutside(xs: seq<string>, i: int)
    requires 0 <= i < |xs|
    requires forall j :: 0 <= j < |xs| && j != i ==> xs[j] != xs[i]
    ensures xs[i] !in xs[..i] && xs[i] !in xs[i + 1..]
  {
    var a, b := xs[..i], xs[i + 1..];
    forall j | 0 <= j < |a| ensures a[j] != xs[i] { assert a[j] == xs[j]; }
    forall j | 0 <= j < |b| ensures b[j] != xs[i] { assert b[j] == xs[i + 1 + j]; }
  }

  /** In a paired selection a title and its id sit at the same position. */
  lemma SamePosition(titles: seq<string>, ids: seq<string>, options: seq<(string, string)>, k: int)
    requires OneToOne(options) && 0 <= k < |options|
    requires Paired(titles, ids, options)
    ensures forall j :: 0 <= j < |titles| ==> (titles[j] == options[k].0 <==> ids[j] == options[k].1)
  {
    forall j | 0 <= j < |titles|
      ensures titles[j] == options[k].0 <==> ids[j] == options[k].1
    {
      var m :| 0 <= m < |options| && options[m] == (titles[j], ids[j]);
    }
  }

  lemma DropPair(titles: seq<string>, ids: seq<string>, options: seq<(string, string)>, i: int)
    requires Paired(titles, ids, options) && 0 <= i < |titles|
    ensures Paired(titles[..i] + titles[i + 1..], ids[..i] + ids[i + 1..], options)
  {
    var t', d' := titles[..i] + titles[i + 1..], ids[..i] + ids[i + 1..];
    forall a | 0 <= a < |t'| ensures (t'[a], d'[a]) in options {
      if a < i { assert (t'[a], d'[a]) == (titles[a], ids[a]); }
      else { assert (t'[a], d'[a]) == (titles[a + 1], ids[a + 1]); }
    }
    forall a, c | 0 <= a < c < |t'| ensures t'[a] != t'[c] {
      var a0 := if a < i then a else a + 1;
      var c0 := if c < i then c else c + 1;
      assert t'[a] == titles[a0] && t'[c] == titles[c0];
    }
  }

  lemma AddPair(titles: seq<string>, ids: seq<string>, options: seq<(string, string)>, k: int)
    requires Paired(titles, ids, options) && 0 <= k < |options|
    requires options[k].0 !in titles
    ensures Paired(titles + [options[k].0], ids + [options[k].1], options)
  {
    var t', d' := titles + [options[k].0], ids + [options[k].1];
    assert options[k] in options;
    forall a | 0 <= a < |t'| ensures (t'[a], d'[a]) in options {
      if a < |titles| { assert (t'[a], d'[a]) == (titles[a], ids[a]); }
    }
  }

  /** One click on an offered topic keeps the two lists paired. */
  lemma SelectKeepsPaired(titles: seq<string>, ids: seq<string>, options: seq<(string, string)>, k: int)
    requires OneToOne(options) && 0 <= k < |options|
    requires Paired(titles, ids, options)
    ensures var r := SelectTopic(titles, ids, options[k].0, options[k].1); Paired(r.0, r.1, options)
  {
    var t, d := options[k].0, options[k].1;
    SamePosition(titles, ids, options, k);
    if t in titles {
      var i :| 0 <= i < |titles| && titles[i] == t;
      AbsentOutside(titles, i);
      AbsentOutside(ids, i);
      RemoveAllOnce(titles, i);
      RemoveAllOnce(ids, i);
      DropPair(titles, ids, options, i);
    } else {
      assert d !in ids;
      AddPair(titles, ids, options, k);
    }
  }

  /** Starting from nothing selected and clicking only offered topics, the
      title and id lists always have the same length and line up. */
  lemma {:induction false} SelectAllPaired(titles: seq<string>, ids: seq<string>, options: seq<(string, string)>,
                                           picks: seq<(string, string)>)
    requires OneToOne(options)
    requires Paired(titles, ids, options)
    requires forall p :: p in picks ==> p in options
    ensures Paired(SelectAll(titles, ids, picks).0, SelectAll(titles, ids, picks).1, options)
    ensures |SelectAll(titles, ids, picks).0| == |SelectAll(titles, ids, picks).1|
    decreases |picks|
  {
    if picks != [] {
      assert picks[0] in picks;
      var k :| 0 <= k < |options| && options[k] == picks[0];
      SelectKeepsPaired(titles, ids, options, k);
      var next := SelectTopic(titles, ids, picks[0].0, picks[0].1);
      assert forall p :: p in picks[1..] ==> p in picks;
      SelectAllPaired(next.0, next.1, options, picks[1..]);
    }
  }

  /** Line 68: a topic is ticked when its id is in the `selectedTopicID`
      prop. */
  function TopicChecked(selectedIds: seq<string>, id: string): (b: bool)
    ensures b <==> id in selectedIds
    ensures selectedIds == [] ==> !b
  {
    Seqs.Includes(selectedIds, id)
  }
}
