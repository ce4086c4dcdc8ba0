/** The text of a lock token: `worker-<process id>-<claim number>`. */
module WorkerId {
  import opened Integers

  function Text(process: nat, claim: nat): string {
    "worker-" + Decimal(process) + "-" + Decimal(claim)
  }

  /** Splitting at a separator that occurs in neither left part. */
  lemma SplitAt(a: string, b: string, c: string, d: string, sep: char)
    requires sep !in a && sep !in c
    requires a + [sep] + b == c + [sep] + d
    ensures a == c && b == d
  {
    var s := a + [sep] + b;
    assert s[|a|] == sep && s[|c|] == sep;
    forall i | 0 <= i < |a| ensures s[i] != sep {
      assert s[i] == a[i] && a[i] in a;
    }
    forall i | 0 <= i < |c| ensures s[i] != sep {
      assert s[i] == c[i] && c[i] in c;
    }
    assert |a| == |c|;
    assert a == s[..|a|] && c == s[..|c|];
    assert b == s[|a| + 1..] && d == s[|c| + 1..];
  }

  /** Different claims, in one process or in several, never share a token. */
  lemma TextInjective(process: nat, claim: nat, process': nat, claim': nat)
    requires Text(process, claim) == Text(process', claim')
    ensures process == process' && claim == claim'
  {
    var a, b := Decimal(process), Decimal(claim);
    var c, d := Decimal(process'), Decimal(claim');
    DecimalDigits(process);
    DecimalDigits(process');
    assert a + ['-'] + b == Text(process, claim)[7..];
    assert c + ['-'] + d == Text(process', claim')[7..];
    SplitAt(a, b, c, d, '-');
    DecimalInjective(process, process');
    DecimalInjective(claim, claim');
  }
}
