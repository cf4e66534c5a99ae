/**
  Stack-name validation and the backup-stack naming convention.

  `__init__` checks a top-level stack's name with
  `re.match("[a-zA-Z][a-zA-Z0-9_.-]*$", name)`. Python's `$` matches at the
  end of the string and also just before a newline that ends it, so the check
  as written lets a name with one trailing newline through. The model keeps
  both: `MatchesAsWritten` is the check as written, `MatchesAnchored` is the
  check anchored at the very end, which is what `ValidStackName` describes
  and what `StackInit.Init` uses.
 */
module StackName {
  import opened StackTypes

  /** A character allowed after the first: `[a-zA-Z0-9_.-]`. */
  predicate IsNameChar(c: char) {
    IsAsciiLetter(c) || ('0' <= c <= '9') || c == '_' || c == '.' || c == '-'
  }

  /** A valid top-level stack name: an ASCII letter followed by name characters only. */
  predicate ValidStackName(n: string) {
    |n| > 0 && IsAsciiLetter(n[0]) && forall i | 1 <= i < |n| :: IsNameChar(n[i])
  }

  /** Where the greedy `[a-zA-Z0-9_.-]*` starting at `i` stops. */
  function RunEnd(s: string, i: nat): (r: nat)
    requires i <= |s|
    ensures i <= r <= |s|
    ensures forall k | i <= k < r :: IsNameChar(s[k])
    ensures r < |s| ==> !IsNameChar(s[r])
    decreases |s| - i
  {
    if i == |s| || !IsNameChar(s[i]) then i else RunEnd(s, i + 1)
  }

  /** The greedy run stops exactly at the first non-name character at or after `i`. */
  lemma {:induction false} RunEndAt(s: string, i: nat, j: nat)
    requires i <= j <= |s|
    requires forall k | i <= k < j :: IsNameChar(s[k])
    requires j < |s| ==> !IsNameChar(s[j])
    ensures RunEnd(s, i) == j
    decreases j - i
  {
    if i < j {
      assert IsNameChar(s[i]);
      RunEndAt(s, i + 1, j);
    }
  }

  /** Python's `$` without MULTILINE: at the end, or before a final newline. */
  predicate DollarAt(s: string, p: nat) {
    p == |s| || (p + 1 == |s| && s[p] == '\n')
  }

  /**
    `re.match("[a-zA-Z][a-zA-Z0-9_.-]*$", s)` succeeds: a letter, then some
    prefix of the class run (the matcher may backtrack into it) after which
    `$` holds.
   */
  predicate MatchesAsWritten(s: string) {
    |s| > 0 && IsAsciiLetter(s[0]) && exists p | 1 <= p <= RunEnd(s, 1) :: DollarAt(s, p)
  }

  /** The same pattern anchored at the very end of the string (`\Z`, or `re.fullmatch`). */
  predicate MatchesAnchored(s: string) {
    |s| > 0 && IsAsciiLetter(s[0]) && exists p | 1 <= p <= RunEnd(s, 1) :: EndAt(s, p)
  }

  /** `\Z`: only at the very end. */
  predicate EndAt(s: string, p: nat) {
    p == |s|
  }

  /** The anchored pattern accepts exactly the valid stack names. */
  lemma MatchesAnchoredIsValid(s: string)
    ensures MatchesAnchored(s) <==> ValidStackName(s)
  {
    if ValidStackName(s) {
      RunEndAt(s, 1, |s|);
      assert EndAt(s, RunEnd(s, 1));
    }
  }

  /**
    The pattern as written accepts the valid names and, besides them, a valid
    name followed by a single newline.
   */
  lemma MatchesAsWrittenCharacterised(s: string)
    ensures MatchesAsWritten(s) <==>
      ValidStackName(s) || (|s| >= 2 && s[|s| - 1] == '\n' && ValidStackName(s[..|s| - 1]))
  {
    if |s| > 0 && IsAsciiLetter(s[0]) {
      var e := RunEnd(s, 1);
      if MatchesAsWritten(s) {
        var p :| 1 <= p <= e && DollarAt(s, p);
        if p == |s| {
          assert ValidStackName(s);
        } else {
          var t := s[..|s| - 1];
          assert forall i | 1 <= i < |t| :: IsNameChar(t[i]) by {
            forall i | 1 <= i < |t| ensures IsNameChar(t[i]) {
              assert t[i] == s[i];
            }
          }
        }
      }
      if ValidStackName(s) {
        RunEndAt(s, 1, |s|);
        assert DollarAt(s, e);
      } else if |s| >= 2 && s[|s| - 1] == '\n' && ValidStackName(s[..|s| - 1]) {
        var t := s[..|s| - 1];
        assert forall k | 1 <= k < |s| - 1 :: IsNameChar(s[k]) by {
          forall k | 1 <= k < |s| - 1 ensures IsNameChar(s[k]) {
            assert t[k] == s[k];
          }
        }
        assert !IsNameChar(s[|s| - 1]);
        RunEndAt(s, 1, |s| - 1);
        assert DollarAt(s, e);
      }
    }
  }

  /** The input that shows the difference: a letter followed by a newline passes the check as written. */
  lemma TrailingNewlineAccepted()
    ensures MatchesAsWritten("a\n") && !ValidStackName("a\n")
  {
    var s := "a\n";
    assert !IsNameChar(s[1]);
    assert RunEnd(s, 1) == 1;
    assert DollarAt(s, 1);
  }

  /** `_backup_name`: the name the backup stack of an update is stored under. */
  function BackupName(n: string): (r: string)
    ensures |r| == |n| + 1 && r[..|n|] == n && r[|n|] == '*'
  {
    n + "*"
  }

  /** A backup name is never accepted as a top-level stack name, by either form of the check. */
  lemma BackupNameNeverValid(n: string)
    ensures !ValidStackName(BackupName(n))
    ensures !MatchesAsWritten(BackupName(n))
  {
    var b := BackupName(n);
    assert !IsNameChar(b[|b| - 1]);
    MatchesAsWrittenCharacterised(b);
    if |b| >= 2 && b[|b| - 1] == '\n' {
      assert false;
    }
  }

  /** Distinct stacks get distinct backup names. */
  lemma BackupNameInjective(a: string, b: string)
    requires BackupName(a) == BackupName(b)
    ensures a == b
  {
    assert |a| == |b|;
    assert a == BackupName(a)[..|a|];
  }
}
