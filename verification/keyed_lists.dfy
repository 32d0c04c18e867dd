/** The list updates the client stores perform after a successful request:
    `list.map(x => x.id === id ? f(x) : x)` and
    `list.filter(x => x.id !== id)`, stated for any element type and any
    notion of "the entry with that id". */
module KeyedLists {
  import opened Common

  /** `s.map(x => hit(x) ? f(x) : x)`: the entries that `hit` selects are
      rewritten by `f`, every other entry is kept, in place. */
  function ReplaceWhere<T>(s: seq<T>, hit: T -> bool, f: T -> T): (r: seq<T>)
    ensures |r| == |s|
    ensures forall i :: 0 <= i < |s| && hit(s[i]) ==> r[i] == f(s[i])
    ensures forall i :: 0 <= i < |s| && !hit(s[i]) ==> r[i] == s[i]
  {
    seq(|s|, i requires 0 <= i < |s| => if hit(s[i]) then f(s[i]) else s[i])
  }

  /** Rewriting with a change that its second application undoes, and
      that keeps the entry selected, restores the list. */
  lemma ReplaceTwiceRestores<T>(s: seq<T>, hit: T -> bool, f: T -> T)
    requires forall x :: hit(x) ==> hit(f(x)) && f(f(x)) == x
    ensures ReplaceWhere(ReplaceWhere(s, hit, f), hit, f) == s
  {
    var once := ReplaceWhere(s, hit, f);
    var twice := ReplaceWhere(once, hit, f);
    forall i | 0 <= i < |s| ensures twice[i] == s[i] {
      if hit(s[i]) {
        assert once[i] == f(s[i]);
      }
    }
  }

  /** When no entry is selected the list is returned as it was. */
  lemma ReplaceNothing<T>(s: seq<T>, hit: T -> bool, f: T -> T)
    requires forall i :: 0 <= i < |s| ==> !hit(s[i])
    ensures ReplaceWhere(s, hit, f) == s
  {
  }

  /** `s.filter(x => !hit(x))`. */
  function RemoveWhere<T>(s: seq<T>, hit: T -> bool): seq<T>
  {
    Filter(s, (x: T) => !hit(x))
  }

  /** Removing keeps the other entries in their order, drops every entry
      `hit` selects, and drops nothing else. */
  lemma RemoveWhereSpec<T>(s: seq<T>, hit: T -> bool)
    ensures IsSubsequence(RemoveWhere(s, hit), s)
    ensures forall x :: x in RemoveWhere(s, hit) <==> x in s && !hit(x)
    ensures |RemoveWhere(s, hit)| <= |s|
  {
    FilterIsSubsequence(s, (x: T) => !hit(x));
    forall x ensures x in RemoveWhere(s, hit) <==> x in s && !hit(x) {
      FilterMembership(s, (x: T) => !hit(x), x);
    }
  }
}
