/** The two string tests the request router applies to a URL: JavaScript's
    `String.prototype.startsWith` and `String.prototype.includes`. */
module Strings {

  /** `s.startsWith(prefix)`. */
  predicate StartsWith(s: string, prefix: string) {
    |prefix| <= |s| && s[..|prefix|] == prefix
  }

  /** `s` ends with `suffix`. */
  predicate EndsWith(s: string, suffix: string) {
    |suffix| <= |s| && s[|s| - |suffix|..] == suffix
  }

  /** Strings ending in `a` and in `b` differ when `a` and `b` differ at the
      same distance `d` from their ends. */
  lemma DifferentEndings(s: string, t: string, a: string, b: string, d: nat)
    requires EndsWith(s, a) && EndsWith(t, b)
    requires d < |a| && d < |b| && a[|a| - 1 - d] != b[|b| - 1 - d]
    ensures s != t
  {
    assert s[|s| - 1 - d] == s[|s| - |a|..][|a| - 1 - d] == a[|a| - 1 - d];
    assert t[|t| - 1 - d] == t[|t| - |b|..][|b| - 1 - d] == b[|b| - 1 - d];
  }

  /** `s.includes(sub)`, computed the way a scan does it: try the current
      position, otherwise move one character to the right. */
  predicate Includes(s: string, sub: string)
    decreases |s|
  {
    StartsWith(s, sub) || (|s| > 0 && Includes(s[1..], sub))
  }

  /** Reference definition: `sub` occurs in `s` starting at index `i`. */
  ghost predicate OccursAt(s: string, sub: string, i: int) {
    0 <= i && i + |sub| <= |s| && s[i..i + |sub|] == sub
  }

  lemma OccursAtTail(s: string, sub: string, i: int)
    requires 0 < i <= |s|
    ensures OccursAt(s, sub, i) <==> OccursAt(s[1..], sub, i - 1)
  {
    if i + |sub| <= |s| {
      var here, there := s[i..i + |sub|], s[1..][i - 1..i - 1 + |sub|];
      assert |here| == |there|;
      forall k | 0 <= k < |here| ensures here[k] == there[k] {
        assert here[k] == s[i + k] && there[k] == s[1..][i - 1 + k];
      }
      assert here == there;
    }
  }

  /** The scan finds `sub` exactly when `sub` occurs somewhere in `s`. */
  lemma {:induction false} IncludesIff(s: string, sub: string)
    ensures Includes(s, sub) <==> exists i :: 0 <= i <= |s| && OccursAt(s, sub, i)
    decreases |s|
  {
    if StartsWith(s, sub) {
      assert OccursAt(s, sub, 0);
    } else if |s| == 0 {
      forall i | 0 <= i <= |s| ensures !OccursAt(s, sub, i) {
        assert i == 0;
      }
    } else {
      IncludesIff(s[1..], sub);
      if Includes(s[1..], sub) {
        var i :| 0 <= i <= |s[1..]| && OccursAt(s[1..], sub, i);
        OccursAtTail(s, sub, i + 1);
      } else {
        forall i | 0 <= i <= |s| ensures !OccursAt(s, sub, i) {
          if i > 0 {
            OccursAtTail(s, sub, i);
          }
        }
      }
    }
  }
}
