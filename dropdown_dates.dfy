/** The availability picker of frontend/src/components/DropdownDatesAvail.tsx:
    each offered slot has a text key, and clicking a slot toggles its key in
    the list of selected keys. */
module DropdownDates {
  import opened Strings
  import Seqs

  /** Lines 29-33: a selected key is removed wherever it occurs; an
      unselected one is appended at the end. */
  function Toggle(prev: seq<string>, key: string): (r: seq<string>)
    ensures key in r <==> key !in prev
    ensures forall y :: y != key ==> (y in r <==> y in prev)
    ensures key in prev ==> r == Seqs.RemoveAll(prev, key)
    ensures key !in prev ==> r == prev + [key]
  {
    if Seqs.Includes(prev, key) then Seqs.RemoveAll(prev, key) else prev + [key]
  }

  /** A toggle leaves the other keys where they were: without the toggled
      key, the list before and after is the same. */
  lemma ToggleKeepsOthers(prev: seq<string>, key: string)
    ensures Seqs.RemoveAll(Toggle(prev, key), key) == Seqs.RemoveAll(prev, key)
  {
    if key !in prev {
      Seqs.RemoveAllAppend(prev, [key], key);
      assert Seqs.RemoveAll([key], key) == [];
    } else {
      var r := Seqs.RemoveAll(prev, key);
      Seqs.RemoveAllAbsent(r, key);
    }
  }

  /** Selecting an unselected slot and then clearing it restores the list. */
  lemma ToggleTwice(prev: seq<string>, key: string)
    requires key !in prev
    ensures Toggle(Toggle(prev, key), key) == prev
  {
    Seqs.RemoveAllAppend(prev, [key], key);
    Seqs.RemoveAllAbsent(prev, key);
    assert Seqs.RemoveAll([key], key) == [];
  }

  /** Line 56: the key of a slot is its date, start and end joined by '|'. */
  function DateKey(availability: string, timeFrom: string, timeTo: string): string {
    availability + "|" + timeFrom + "|" + timeTo
  }

  /** Splitting a key on '|' gives back the three parts, as long as none of
      them contains a '|'. */
  lemma KeyRoundTrip(availability: string, timeFrom: string, timeTo: string)
    requires '|' !in availability && '|' !in timeFrom && '|' !in timeTo
    ensures Split(DateKey(availability, timeFrom, timeTo), '|') == [availability, timeFrom, timeTo]
  {
    var rest := timeFrom + "|" + timeTo;
    assert DateKey(availability, timeFrom, timeTo) == availability + ['|'] + rest;
    SplitAfterPart(availability, '|', rest);
    assert rest == timeFrom + ['|'] + timeTo;
    SplitAfterPart(timeFrom, '|', timeTo);
  }

  /** Under the same condition, distinct slots have distinct keys. */
  lemma KeyInjective(a: string, f: string, t: string, a': string, f': string, t': string)
    requires '|' !in a && '|' !in f && '|' !in t
    requires '|' !in a' && '|' !in f' && '|' !in t'
    requires DateKey(a, f, t) == DateKey(a', f', t')
    ensures a == a' && f == f' && t == t'
  {
    KeyRoundTrip(a, f, t);
    KeyRoundTrip(a', f', t');
  }

  /** Line 60: which offered slots are shown ticked. */
  function Checked(dates: seq<(string, string, string)>, selected: seq<string>): (r: seq<bool>)
    ensures |r| == |dates|
    ensures forall i :: 0 <= i < |dates| ==>
      (r[i] <==> DateKey(dates[i].0, dates[i].1, dates[i].2) in selected)
  {
    seq(|dates|, i requires 0 <= i < |dates| =>
      Seqs.Includes(selected, DateKey(dates[i].0, dates[i].1, dates[i].2)))
  }
}
