/**
 * Names of the files in the `backups` directory and the order `list_backups`
 * shows them in. A manual, automatic or API backup is written to
 * `backup_<stamp>.db`, the safety copy a restore takes first to
 * `pre_restore_<stamp>.db`, where `<stamp>` is the UTC clock formatted as
 * `%Y%m%d%H%M%S`. The listing is `sorted(os.listdir(...), reverse=True)`:
 * Python's string order, descending.
 */
module Snapshots {

  predicate IsDigits(s: string) {
    forall i :: 0 <= i < |s| ==> '0' <= s[i] <= '9'
  }

  /** A clock reading formatted as `%Y%m%d%H%M%S`; the clock itself is injected. */
  type Stamp = s: string | |s| == 14 && IsDigits(s) witness "00000000000000"

  const BackupPrefix: string := "backup_"
  const PreRestorePrefix: string := "pre_restore_"
  const DbSuffix: string := ".db"

  /** The name a backup gets; the stamp can be read back from it, so distinct stamps give distinct names. */
  function BackupName(stamp: Stamp): (name: string)
    ensures |name| == |BackupPrefix| + 14 + |DbSuffix|
    ensures name[..|BackupPrefix|] == BackupPrefix && name[|name| - |DbSuffix|..] == DbSuffix
    ensures name[|BackupPrefix|..|BackupPrefix| + 14] == stamp
  {
    BackupPrefix + stamp + DbSuffix
  }

  /** The name a restore's safety copy gets; the stamp can be read back from it. */
  function PreRestoreName(stamp: Stamp): (name: string)
    ensures |name| == |PreRestorePrefix| + 14 + |DbSuffix|
    ensures name[..|PreRestorePrefix|] == PreRestorePrefix && name[|name| - |DbSuffix|..] == DbSuffix
    ensures name[|PreRestorePrefix|..|PreRestorePrefix| + 14] == stamp
  {
    PreRestorePrefix + stamp + DbSuffix
  }

  // ---------------------------------------------------------------------------
  // Python's ordering of str
  // ---------------------------------------------------------------------------

  /** `a < b` on Python strings: the first differing code point decides; a proper prefix comes first. */
  predicate Less(a: string, b: string)
    ensures a < b ==> Less(a, b)
    decreases |a|
  {
    if a == [] then b != []
    else if b == [] then false
    else if a[0] != b[0] then a[0] < b[0]
    else Less(a[1..], b[1..])
  }

  lemma {:induction false} LessIrreflexive(a: string)
    ensures !Less(a, a)
    decreases |a|
  {
    if a != [] {
      LessIrreflexive(a[1..]);
    }
  }

  lemma {:induction false} LessTransitive(a: string, b: string, c: string)
    requires Less(a, b) && Less(b, c)
    ensures Less(a, c)
    decreases |a|
  {
    if a != [] && a[0] == b[0] && b[0] == c[0] {
      LessTransitive(a[1..], b[1..], c[1..]);
    }
  }

  lemma {:induction false} LessTotal(a: string, b: string)
    requires a != b
    ensures Less(a, b) || Less(b, a)
    decreases |a|
  {
    if a != [] && b != [] && a[0] == b[0] {
      assert a == [a[0]] + a[1..] && b == [b[0]] + b[1..];
      LessTotal(a[1..], b[1..]);
    }
  }

  /** Two strings that start with equal-length heads compare by the heads first, then by the tails. */
  lemma {:induction false} LessConcat(s: string, t: string, x: string, y: string)
    requires |s| == |t|
    ensures Less(s + x, t + y) <==> Less(s, t) || (s == t && Less(x, y))
    decreases |s|
  {
    if s != [] {
      assert (s + x)[0] == s[0] && (t + y)[0] == t[0];
      assert (s + x)[1..] == s[1..] + x && (t + y)[1..] == t[1..] + y;
      LessConcat(s[1..], t[1..], x, y);
      if s[0] == t[0] && s[1..] == t[1..] {
        assert s == t;
      }
    } else {
      assert s + x == x && t + y == y;
    }
  }

  // ---------------------------------------------------------------------------
  // Stamps order names chronologically
  // ---------------------------------------------------------------------------

  function Pow10(n: nat): (r: nat)
    ensures r >= 1
  {
    if n == 0 then 1 else 10 * Pow10(n - 1)
  }

  /** The number a digit character denotes. */
  function Digit(c: char): (d: nat)
    requires '0' <= c <= '9'
    ensures d <= 9
  {
    c as int - '0' as int
  }

  /** The number a digit string denotes. */
  function Value(s: string): nat
    requires IsDigits(s)
  {
    if s == [] then 0
    else
      var d := Digit(s[0]);
      var p := Pow10(|s| - 1);
      MulMonotone(0, d, p);
      d * p + Value(s[1..])
  }

  lemma MulMonotone(a: nat, b: nat, p: nat)
    requires a <= b
    ensures a * p <= b * p
  {
    assert b * p == a * p + (b - a) * p;
  }

  /** A leading digit `d` before a tail worth less than `p`. */
  lemma LeadingDigit(d: nat, v: nat, p: nat)
    requires d <= 9 && v < p
    ensures d * p + v < (d + 1) * p <= 10 * p
  {
    MulMonotone(d + 1, 10, p);
    assert (d + 1) * p == d * p + p;
  }

  lemma {:induction false} ValueBound(s: string)
    requires IsDigits(s)
    ensures Value(s) < Pow10(|s|)
    decreases |s|
  {
    if s != [] {
      ValueBound(s[1..]);
      var p := Pow10(|s| - 1);
      var d := Digit(s[0]);
      assert Value(s) == d * p + Value(s[1..]);
      LeadingDigit(d, Value(s[1..]), p);
    }
  }

  /** A smaller leading digit decides, whatever the tails below `p`. */
  lemma LeadingDigitDecides(ds: nat, dt: nat, vs: nat, vt: nat, p: nat)
    requires ds < dt <= 9 && vs < p
    ensures ds * p + vs < dt * p + vt
  {
    LeadingDigit(ds, vs, p);
    MulMonotone(ds + 1, dt, p);
  }

  /** For digit strings of one length, string order is numeric order. */
  lemma {:induction false} DigitsOrder(s: string, t: string)
    requires IsDigits(s) && IsDigits(t) && |s| == |t|
    ensures Less(s, t) <==> Value(s) < Value(t)
    decreases |s|
  {
    if s != [] {
      var p := Pow10(|s| - 1);
      var ds, dt := Digit(s[0]), Digit(t[0]);
      assert Value(s) == ds * p + Value(s[1..]);
      assert Value(t) == dt * p + Value(t[1..]);
      if ds == dt {
        DigitsOrder(s[1..], t[1..]);
      } else {
        ValueBound(s[1..]);
        ValueBound(t[1..]);
        if ds < dt {
          LeadingDigitDecides(ds, dt, Value(s[1..]), Value(t[1..]), p);
        } else {
          LeadingDigitDecides(dt, ds, Value(t[1..]), Value(s[1..]), p);
        }
      }
    }
  }

  /**
   * Among backups, and among pre-restore copies, string order of the names is
   * the order of the clock readings in their stamps.
   */
  lemma NamesFollowStamps(s: Stamp, t: Stamp)
    ensures Less(BackupName(s), BackupName(t)) <==> Value(s) < Value(t)
    ensures Less(PreRestoreName(s), PreRestoreName(t)) <==> Value(s) < Value(t)
  {
    DigitsOrder(s, t);
    LessIrreflexive(DbSuffix);
    LessConcat(BackupPrefix + s, BackupPrefix + t, DbSuffix, DbSuffix);
    LessConcat(BackupPrefix, BackupPrefix, s, t);
    LessIrreflexive(BackupPrefix);
    LessConcat(PreRestorePrefix + s, PreRestorePrefix + t, DbSuffix, DbSuffix);
    LessConcat(PreRestorePrefix, PreRestorePrefix, s, t);
    LessIrreflexive(PreRestorePrefix);
  }

  /**
   * Every pre-restore copy sorts above every backup, whatever their stamps:
   * the descending listing shows all `pre_restore_*` files before any
   * `backup_*` file. In particular the two kinds never share a name.
   */
  lemma PreRestoreListedFirst(s: Stamp, t: Stamp)
    ensures Less(BackupName(s), PreRestoreName(t))
    ensures BackupName(s) != PreRestoreName(t)
  {
    assert BackupName(s)[0] == 'b' && PreRestoreName(t)[0] == 'p';
  }

  // ---------------------------------------------------------------------------
  // sorted(..., reverse=True)
  // ---------------------------------------------------------------------------

  /** The name that sorts last among `names`. */
  method Greatest(names: set<string>) returns (m: string)
    requires names != {}
    ensures m in names
    ensures forall x :: x in names && x != m ==> Less(x, m)
  {
    m :| m in names;
    var todo := names - {m};
    while todo != {}
      invariant todo <= names && m in names && m !in todo
      invariant forall x :: x in names && x !in todo && x != m ==> Less(x, m)
      decreases |todo|
    {
      var y :| y in todo;
      if Less(m, y) {
        forall x | x in names && x !in todo && x != m
          ensures Less(x, y)
        {
          LessTransitive(x, m, y);
        }
        m := y;
      } else {
        LessTotal(m, y);
      }
      todo := todo - {y};
    }
  }

  /** The names of a directory listing, sorted in descending string order. */
  method SortDescending(names: set<string>) returns (r: seq<string>)
    ensures forall n :: n in r <==> n in names
    ensures |r| == |names|
    ensures forall i, j :: 0 <= i < j < |r| ==> Less(r[j], r[i])
  {
    var rest := names;
    r := [];
    while rest != {}
      invariant rest <= names
      invariant forall n :: n in r <==> n in names && n !in rest
      invariant |r| + |rest| == |names|
      invariant forall i, j :: 0 <= i < j < |r| ==> Less(r[j], r[i])
      invariant forall i, x :: 0 <= i < |r| && x in rest ==> Less(x, r[i])
      decreases |rest|
    {
      var m := Greatest(rest);
      r := r + [m];
      rest := rest - {m};
    }
  }
}
