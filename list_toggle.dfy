/** The toggle both selection lists use (`toggleTopic` in
    src/components/NewsFilter.jsx and `toggleSource` in
    src/components/Settings.jsx): an id that is present is removed, every
    occurrence of it; an id that is absent is appended. */
module ListToggle {
  import opened Seqs

  /** `list.filter(x => x !== id)`. */
  function RemoveAll(s: seq<string>, id: string): (r: seq<string>)
    ensures id !in r
    ensures forall x :: x in r <==> x in s && x != id
    ensures IsSubsequence(r, s)
    ensures forall x :: x != id ==> multiset(r)[x] == multiset(s)[x]
  {
    if s == [] then []
    else
      var rest := RemoveAll(s[1..], id);
      assert s == [s[0]] + s[1..];
      if s[0] == id then
        SubsequenceOfTail(rest, s);
        rest
      else
        [s[0]] + rest
  }

  /** The list after toggling `id`. */
  function Toggle(s: seq<string>, id: string): (r: seq<string>)
    ensures id in s ==> id !in r && IsSubsequence(r, s)
    ensures id in s ==> forall x :: x != id ==> multiset(r)[x] == multiset(s)[x]
    ensures id !in s ==> r == s + [id]
  {
    if id in s then RemoveAll(s, id) else s + [id]
  }

  /** Toggling flips the id's membership and no other's. */
  lemma ToggleFlips(s: seq<string>, id: string, other: string)
    requires other != id
    ensures id in Toggle(s, id) <==> id !in s
    ensures other in Toggle(s, id) <==> other in s
  {
  }

  /** Removing an id that is absent changes nothing. */
  lemma {:induction false} RemoveAbsent(s: seq<string>, id: string)
    requires id !in s
    ensures RemoveAll(s, id) == s
  {
    if s != [] {
      RemoveAbsent(s[1..], id);
    }
  }

  /** Toggling an absent id twice gives back the list. */
  lemma {:induction false} ToggleTwice(s: seq<string>, id: string)
    requires id !in s
    ensures Toggle(Toggle(s, id), id) == s
  {
    RemoveAbsentThenId(s, id);
  }

  lemma {:induction false} RemoveAbsentThenId(s: seq<string>, id: string)
    requires id !in s
    ensures RemoveAll(s + [id], id) == s
  {
    if s == [] {
      assert RemoveAll([id], id) == RemoveAll([], id);
    } else {
      assert (s + [id])[1..] == s[1..] + [id];
      RemoveAbsentThenId(s[1..], id);
    }
  }
}
