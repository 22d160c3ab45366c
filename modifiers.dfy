/**
 * The operations `distinct` and `calcFoundRows` perform on the
 * `select_before` list: `Add` after an `IndexOf` test, and `List.Remove`,
 * which drops the first occurrence only.
 */
module Modifiers {

  /** `if (s.IndexOf(w) == -1) s.Add(w)`. */
  function AddIfAbsent(s: seq<string>, w: string): (r: seq<string>)
    ensures w in r
    ensures multiset(r) == multiset(s) + (if w in s then multiset{} else multiset{w})
  {
    if w in s then s else s + [w]
  }

  /** `s.Remove(w)`: the list without its first `w`, unchanged when there is none. */
  function RemoveFirst(s: seq<string>, w: string): (r: seq<string>)
    ensures multiset(r) == multiset(s) - multiset{w}
    ensures w !in s ==> r == s
  {
    if |s| == 0 then s
    else
      assert s == [s[0]] + s[1..];
      if s[0] == w then s[1..]
      else [s[0]] + RemoveFirst(s[1..], w)
  }

  /** Adding a word that occurs at most once leaves it occurring exactly once. */
  lemma AddIfAbsentNoDuplicate(s: seq<string>, w: string)
    requires multiset(s)[w] <= 1
    ensures multiset(AddIfAbsent(s, w))[w] == 1
  {
  }

  /** Removing a word that occurs at most once leaves none of it. */
  lemma RemoveFirstRemovesAll(s: seq<string>, w: string)
    requires multiset(s)[w] <= 1
    ensures w !in RemoveFirst(s, w)
  {
    var r := RemoveFirst(s, w);
    assert multiset(r)[w] == 0;
  }

  /** Removing keeps the order of the remaining words: it deletes the position of the first `w`. */
  lemma {:induction false} RemoveFirstAt(s: seq<string>, w: string, i: nat)
    requires i < |s| && s[i] == w && w !in s[..i]
    ensures RemoveFirst(s, w) == s[..i] + s[i + 1..]
  {
    if i > 0 {
      assert s[0] in s[..i];
      assert s[1..][..i - 1] == s[1..i];
      RemoveFirstAt(s[1..], w, i - 1);
      assert s[..i] == [s[0]] + s[1..][..i - 1];
      assert s[i + 1..] == s[1..][i..];
    }
  }
}
