/** Chip selection (toggleChipSelection in app.js): clicking a complaint or
    measure chip adds its id to the selection array, or takes the id out again. */
module Selection {
  import opened Wrappers
  import opened Seqs

  function IsId(id: string): string -> bool {
    x => x == id
  }

  /** The selection after a click on `id`: the id appended when absent, its
      first occurrence cut out when present. */
  function Toggled(s: seq<string>, id: string): seq<string> {
    match FirstIndex(s, IsId(id))
    case None => s + [id]
    case Some(i) => s[..i] + s[i + 1..]
  }

  /** The array object toggleChipSelection receives, changed in place. */
  class IdArray {
    var elements: seq<string>

    constructor (initial: seq<string>)
      ensures elements == initial
    {
      elements := initial;
    }

    /** toggleChipSelection: indexOf, then push when absent or splice(idx, 1) when present. */
    method Toggle(id: string)
      modifies this
      ensures elements == Toggled(old(elements), id)
    {
      var idx := FirstIndex(elements, IsId(id));
      match idx {
        case None =>
          elements := elements + [id];
        case Some(i) =>
          elements := elements[..i] + elements[i + 1..];
      }
    }
  }

  predicate NoDuplicates(s: seq<string>) {
    forall i, j :: 0 <= i < j < |s| ==> s[i] != s[j]
  }

  /** A click adds one copy of the id when it is absent and removes one copy
      when it is present; no other id gains or loses a copy. */
  lemma ToggleCounts(s: seq<string>, id: string)
    ensures id !in s ==> multiset(Toggled(s, id)) == multiset(s) + multiset{id}
    ensures id in s ==> multiset(Toggled(s, id)) == multiset(s) - multiset{id}
  {
    match FirstIndex(s, IsId(id))
    case None =>
    case Some(i) =>
      assert s == s[..i] + [s[i]] + s[i + 1..];
  }

  /** On a selection without duplicates, a click flips the membership of the
      id and leaves every other id where it was, and no duplicate appears. */
  lemma ToggleFlipsMembership(s: seq<string>, id: string)
    requires NoDuplicates(s)
    ensures id in Toggled(s, id) <==> id !in s
    ensures forall x :: x != id ==> (x in Toggled(s, id) <==> x in s)
    ensures NoDuplicates(Toggled(s, id))
  {
    var t := Toggled(s, id);
    match FirstIndex(s, IsId(id))
    case None =>
      assert t == s + [id];
      assert id !in s;
    case Some(i) =>
      assert t == s[..i] + s[i + 1..];
      assert forall k :: 0 <= k < |t| ==> t[k] == if k < i then s[k] else s[k + 1];
      assert id !in t;
      forall x | x != id && x in s
        ensures x in t
      {
        var k :| 0 <= k < |s| && s[k] == x;
        if k < i { assert t[k] == x; } else { assert t[k - 1] == x; }
      }
  }

  /** The other ids keep their relative order: with the clicked id filtered
      out, the selection is the same before and after. */
  lemma ToggleKeepsOrderOfOthers(s: seq<string>, id: string)
    ensures Filter(Toggled(s, id), (x: string) => x != id) == Filter(s, (x: string) => x != id)
  {
    var keep := (x: string) => x != id;
    match FirstIndex(s, IsId(id))
    case None =>
      FilterAppend(s, [id], keep);
      assert Filter([id], keep) == [];
    case Some(i) =>
      assert s == s[..i] + ([s[i]] + s[i + 1..]);
      FilterAppend(s[..i], [s[i]] + s[i + 1..], keep);
      FilterAppend([s[i]], s[i + 1..], keep);
      FilterAppend(s[..i], s[i + 1..], keep);
      assert Filter([s[i]], keep) == [];
  }

  /** Clicking an unselected chip twice restores the selection exactly. */
  lemma ToggleTwiceAbsent(s: seq<string>, id: string)
    requires id !in s
    ensures Toggled(Toggled(s, id), id) == s
  {
    var t := s + [id];
    assert Toggled(s, id) == t;
    assert IsId(id)(t[|s|]);
    var i := FirstIndex(t, IsId(id)).value;
    assert i == |s|;
    assert t[..i] == s;
  }

  /** Clicking a selected chip twice restores the selection as a set, but the
      id moves to the end: the selection order is not restored. */
  lemma ToggleTwicePresent(s: seq<string>, id: string)
    requires NoDuplicates(s) && id in s
    ensures multiset(Toggled(Toggled(s, id), id)) == multiset(s)
    ensures Toggled(Toggled(s, id), id) == Filter(s, (x: string) => x != id) + [id]
  {
    ToggleFlipsMembership(s, id);
    ToggleCounts(s, id);
    var t := Toggled(s, id);
    ToggleCounts(t, id);
    var i := FirstIndex(s, IsId(id)).value;
    assert s[..i] + s[i + 1..] == t;
    FilterDropsOnlyRejected(s, (x: string) => x != id, i);
  }

  /** The order is really lost: for ["pain", "weakness"], clicking "pain" twice
      gives ["weakness", "pain"]. */
  lemma ToggleTwiceReorders()
    ensures Toggled(Toggled(["pain", "weakness"], "pain"), "pain") == ["weakness", "pain"]
  {
    var s := ["pain", "weakness"];
    assert FirstIndex(s, IsId("pain")) == Some(0);
    assert Toggled(s, "pain") == ["weakness"];
    assert FirstIndex(["weakness"], IsId("pain")) == None;
  }
}
