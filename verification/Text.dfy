/** Substring search as Python's `str.find` and `in` do it, and the lemmas a scanner needs. */
module Text {
  import opened Wrappers

  predicate OccursAt(text: string, s: string, i: nat) {
    i + |s| <= |text| && text[i..i + |s|] == s
  }

  /** The first position at or after `start` where `s` occurs. */
  function Find(text: string, s: string, start: nat): (r: Option<nat>)
    requires start <= |text|
    ensures r.Some? ==> start <= r.value && OccursAt(text, s, r.value)
    ensures r.Some? ==> forall i :: start <= i < r.value ==> !OccursAt(text, s, i)
    ensures r.None? ==> forall i :: start <= i ==> !OccursAt(text, s, i)
    decreases |text| - start
  {
    if OccursAt(text, s, start) then Some(start)
    else if start == |text| then None
    else Find(text, s, start + 1)
  }

  predicate Contains(text: string, s: string) {
    Find(text, s, 0).Some?
  }

  /** No occurrence of `s` starts inside `content` when `follow` is appended to it. */
  ghost predicate FreeOf(content: string, s: string, follow: string) {
    forall i :: 0 <= i < |content| ==> !OccursAt(content + follow, s, i)
  }

  /** No proper non-empty suffix of `s` begins `follow`: `s` cannot straddle a boundary before `follow`. */
  ghost predicate NoStraddle(s: string, follow: string) {
    forall k :: 0 < k < |s| ==> !(s[k..] <= follow)
  }

  lemma ContainsAt(text: string, s: string, i: nat)
    requires OccursAt(text, s, i)
    ensures Contains(text, s)
  {
  }

  /** A stop absent from the content, and unable to straddle its end, is first met after the content. */
  lemma FreeOfIntro(content: string, s: string, follow: string)
    requires !Contains(content, s)
    requires NoStraddle(s, follow)
    ensures FreeOf(content, s, follow)
  {
    forall i | 0 <= i < |content| ensures !OccursAt(content + follow, s, i) {
      var k := |content| - i;
      if k < |s| <= k + |follow| {
        assert (content + follow)[i..i + |s|][k..] == follow[..|s| - k];
      } else if |s| <= k {
        assert content[i..i + |s|] == (content + follow)[i..i + |s|];
        assert !OccursAt(content, s, i);
      }
    }
  }

  lemma ContainedNotFree(content: string, s: string, follow: string)
    requires Contains(content, s) && s != ""
    ensures !FreeOf(content, s, follow)
  {
    var i := Find(content, s, 0).value;
    assert (content + follow)[i..i + |s|] == content[i..i + |s|];
    assert OccursAt(content + follow, s, i);
  }

  /** When a character of `s` appears only at its start, `s` cannot straddle into text starting with that character. */
  lemma NoStraddleByHead(s: string, follow: string, c: char)
    requires follow != "" && follow[0] == c
    requires forall k :: 0 < k < |s| ==> s[k] != c
    ensures NoStraddle(s, follow)
  {
    forall k | 0 < k < |s| ensures !(s[k..] <= follow) {
      assert s[k..][0] == s[k];
    }
  }

  lemma SliceOfSlice<T>(s: seq<T>, i: nat, j: nat, a: nat, b: nat)
    requires i <= j <= |s| && a <= b <= j - i
    ensures s[i..j][a..b] == s[i + a..i + b]
  {
    assert forall k :: 0 <= k < j - i ==> s[i..j][k] == s[i + k];
  }

  /** A substring containing `s` makes the whole contain it. */
  lemma ContainsMono(a: string, b: string, c: string, s: string)
    requires !Contains(a + b + c, s)
    ensures !Contains(b, s)
  {
    if Contains(b, s) {
      var i := Find(b, s, 0).value;
      assert (a + b + c)[|a| + i..|a| + i + |s|] == b[i..i + |s|];
      ContainsAt(a + b + c, s, |a| + i);
    }
  }

  /** Joining with newlines, as `"\n".join`. */
  function JoinLines(parts: seq<string>): string {
    if parts == [] then "" else if |parts| == 1 then parts[0] else parts[0] + "\n" + JoinLines(parts[1..])
  }
}
