/** The name proposed for a copy of a session. */
module CopyNames {
  import opened Common
  import opened Paths

  predicate IsDigit(c: char) {
    '0' <= c <= '9'
  }

  /** What `.` does not match. */
  predicate IsLineBreak(c: char) {
    c == '\n' || c == '\r' || c == 0x2028 as char || c == 0x2029 as char
  }

  predicate HasLineBreak(s: string) {
    exists c :: c in s && IsLineBreak(c)
  }

  /** `/^(.*)-(\d+)$/`, group one: digits hold no dash, so the dash is the last one. */
  function BaseCopiedSessionName(name: string): string {
    var dash := LastIndex(name, '-');
    if dash >= 0 && dash + 1 < |name| && (forall c <- name[dash + 1..] :: IsDigit(c)) && !HasLineBreak(name[..dash])
    then name[..dash] else name
  }

  function Decimal(n: nat): (r: string)
    ensures r != "" && forall c <- r :: IsDigit(c)
  {
    var last := [('0' as int + n % 10) as char];
    if n < 10 then last else Decimal(n / 10) + last
  }

  lemma {:induction false} DecimalDistinct(a: nat, b: nat)
    requires Decimal(a) == Decimal(b)
    ensures a == b
  {
    var s := Decimal(a);
    assert s[|s| - 1] as int - '0' as int == a % 10 == b % 10;
    if a >= 10 && b >= 10 {
      assert s[..|s| - 1] == Decimal(a / 10) == Decimal(b / 10);
      DecimalDistinct(a / 10, b / 10);
    }
  }

  /** The number that digits stand for. */
  function ValueOf(digits: string): nat {
    if digits == "" then 0
    else
      var last := digits[|digits| - 1];
      ValueOf(digits[..|digits| - 1]) * 10 + if IsDigit(last) then last as int - '0' as int else 0
  }

  /** A number is written with its own digits, and without zeros before them. */
  lemma {:induction false} DecimalIsItsValue(n: nat)
    ensures ValueOf(Decimal(n)) == n
    ensures n > 0 ==> Decimal(n)[0] != '0'
  {
    var last := [('0' as int + n % 10) as char];
    if n >= 10 {
      DecimalIsItsValue(n / 10);
      var s := Decimal(n);
      assert s == Decimal(n / 10) + last;
      assert s[..|s| - 1] == Decimal(n / 10);
    } else {
      assert last[..0] == "";
      assert ValueOf("") == 0;
    }
  }

  /** The name reads as the name of copy `digits` of `baseName`. */
  predicate ReadsAsCopy(name: string, baseName: string, digits: string) {
    && name == baseName + "-" + digits
    && digits != "" && (forall c <- digits :: '0' <= c <= '9')
    && forall c <- baseName :: (c as int) !in {0x0A, 0x0D, 0x2028, 0x2029}
  }

  /** The base of a name that reads as a copy is what stands before the dash; any other name is its
      own base. */
  lemma BaseExactly(name: string)
    ensures forall baseName, digits :: ReadsAsCopy(name, baseName, digits) ==> BaseCopiedSessionName(name) == baseName
    ensures (forall baseName, digits :: !ReadsAsCopy(name, baseName, digits)) ==> BaseCopiedSessionName(name) == name
  {
    hide ReadsAsCopy, BaseCopiedSessionName;
    forall baseName, digits | ReadsAsCopy(name, baseName, digits)
      ensures BaseCopiedSessionName(name) == baseName
    {
      CopyHasBase(name, baseName, digits);
    }
    if BaseCopiedSessionName(name) != name {
      var baseName, digits := CopyParts(name);
    }
  }

  lemma CopyHasBase(name: string, baseName: string, digits: string)
    requires ReadsAsCopy(name, baseName, digits)
    ensures BaseCopiedSessionName(name) == baseName
  {
    var dash := |baseName|;
    assert name[dash] == '-' && name[..dash] == baseName && name[dash + 1..] == digits;
    forall i | dash < i < |name|
      ensures name[i] != '-'
    {
      assert name[i] == digits[i - dash - 1] && digits[i - dash - 1] in digits;
    }
    LastIndexIs(name, '-', dash);
  }

  lemma CopyParts(name: string) returns (baseName: string, digits: string)
    requires BaseCopiedSessionName(name) != name
    ensures ReadsAsCopy(name, baseName, digits)
  {
    var dash := LastIndex(name, '-');
    baseName, digits := name[..dash], name[dash + 1..];
    assert name == baseName + "-" + digits;
    assert forall c <- digits :: IsDigit(c);
  }

  function Copy(baseName: string, n: nat): string {
    baseName + "-" + Decimal(n)
  }

  lemma CopiesDistinct(baseName: string, a: nat, b: nat)
    requires Copy(baseName, a) == Copy(baseName, b)
    ensures a == b
  {
    assert Copy(baseName, a)[|baseName| + 1..] == Decimal(a);
    assert Copy(baseName, b)[|baseName| + 1..] == Decimal(b);
    DecimalDistinct(a, b);
  }

  /** The first `n` copies are that many names. */
  lemma {:induction false} ManyCopies(baseName: string, n: nat, existing: set<string>)
    requires forall m :: 1 <= m <= n ==> Copy(baseName, m) in existing
    ensures n <= |existing|
  {
    if n > 0 {
      var last := Copy(baseName, n);
      forall m | 1 <= m <= n - 1
        ensures Copy(baseName, m) in existing - {last}
      {
        if Copy(baseName, m) == last { CopiesDistinct(baseName, m, n); }
      }
      ManyCopies(baseName, n - 1, existing - {last});
    }
  }

  /** The least unused number, found within one more step than there are names. */
  method NextCopiedSessionName(name: string, existingSessionNames: seq<string>) returns (copy: string, ghost n: nat)
    ensures copy == Copy(BaseCopiedSessionName(name), n) && copy !in existingSessionNames
    ensures 1 <= n <= |existingSessionNames| + 1
    ensures forall m :: 1 <= m < n ==> Copy(BaseCopiedSessionName(name), m) in existingSessionNames
  {
    var existingNames := set s | s in existingSessionNames;
    SetNoLarger(existingSessionNames);
    var baseName := BaseCopiedSessionName(name);
    var sequence := 1;
    while Copy(baseName, sequence) in existingNames
      invariant sequence >= 1
      invariant forall m :: 1 <= m < sequence ==> Copy(baseName, m) in existingNames
      decreases |existingNames| + 1 - sequence
    {
      ManyCopies(baseName, sequence, existingNames);
      sequence := sequence + 1;
    }
    ManyCopies(baseName, sequence - 1, existingNames);
    return Copy(baseName, sequence), sequence;
  }

  lemma {:induction false} SetNoLarger(names: seq<string>)
    ensures |set s | s in names| <= |names|
  {
    if names != [] {
      SetNoLarger(names[1..]);
      assert (set s | s in names) == (set s | s in names[1..]) + {names[0]};
    }
  }

  lemma LastDash(baseName: string, n: nat)
    ensures LastIndex(Copy(baseName, n), '-') == |baseName|
  {
    var copy := Copy(baseName, n);
    assert copy[|baseName|] == '-';
    forall i | |baseName| < i < |copy|
      ensures copy[i] != '-'
    {
      assert copy[i] == Decimal(n)[i - |baseName| - 1];
      assert IsDigit(Decimal(n)[i - |baseName| - 1]);
    }
  }

  /** A copy of a copy draws from the same base exactly if the base has no line break. */
  lemma CopyKeepsBaseExactly(baseName: string, n: nat)
    ensures BaseCopiedSessionName(Copy(baseName, n)) == baseName <==> !HasLineBreak(baseName)
  {
    LastDash(baseName, n);
    var copy := Copy(baseName, n);
    assert copy[..|baseName|] == baseName && copy[|baseName| + 1..] == Decimal(n);
    assert |copy| > |baseName|;
  }
}
