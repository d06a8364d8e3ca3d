/**
 * The per-project migration ledger of the mocked management API
 * (`MockProject.migrations` in test/mocks.ts): an ordered list of applied
 * migrations, the ordering of their version stamps, the truncation that
 * `reset` performs and the projection that `GET .../database/migrations`
 * reports.
 */
module Ledger {
  import opened Options

  /** One applied migration. The version is a `yyyyMMddHHmmss` timestamp string. */
  datatype Migration = Migration(version: string, name: string, query: string)

  /** What the migration listing reports per entry: the query text is withheld. */
  datatype MigrationSummary = MigrationSummary(version: string, name: string)

  /** The shape `format(new Date(), 'yyyyMMddHHmmss')` produces: fourteen decimal digits. */
  predicate IsVersion(v: string) {
    |v| == 14 && forall i :: 0 <= i < |v| ==> '0' <= v[i] <= '9'
  }

  // ---------------------------------------------------------------------------
  // JavaScript string comparison
  // ---------------------------------------------------------------------------

  /**
   * JavaScript's `a < b` on strings: lexicographic, character by character,
   * with a proper prefix ordered first.
   */
  predicate Before(a: string, b: string)
    decreases |a|
  {
    if a == [] then b != []
    else if b == [] then false
    else if a[0] != b[0] then a[0] < b[0]
    else Before(a[1..], b[1..])
  }

  /** JavaScript's `a <= b` on strings, which is defined as "not `b < a`". */
  predicate AtMost(a: string, b: string) {
    !Before(b, a)
  }

  lemma {:induction false} BeforeIrreflexive(a: string)
    ensures !Before(a, a)
  {
    if a != [] {
      BeforeIrreflexive(a[1..]);
    }
  }

  lemma {:induction false} BeforeTransitive(a: string, b: string, c: string)
    requires Before(a, b) && Before(b, c)
    ensures Before(a, c)
  {
    if a != [] && a[0] == b[0] && b[0] == c[0] {
      BeforeTransitive(a[1..], b[1..], c[1..]);
    }
  }

  lemma {:induction false} BeforeTotal(a: string, b: string)
    ensures a == b || Before(a, b) || Before(b, a)
  {
    if a != [] && b != [] && a[0] == b[0] {
      BeforeTotal(a[1..], b[1..]);
      if a[1..] == b[1..] {
        assert a == [a[0]] + a[1..] && b == [b[0]] + b[1..];
      }
    }
  }

  lemma BeforeAsymmetric(a: string, b: string)
    requires Before(a, b)
    ensures !Before(b, a)
  {
    if Before(b, a) {
      BeforeTransitive(a, b, a);
      BeforeIrreflexive(a);
    }
  }

  /** `<=` is "equal or strictly before", as one expects of a total order. */
  lemma AtMostIsBeforeOrEqual(a: string, b: string)
    ensures AtMost(a, b) <==> a == b || Before(a, b)
  {
    BeforeTotal(a, b);
    BeforeIrreflexive(a);
    if Before(a, b) {
      BeforeAsymmetric(a, b);
    }
  }

  /** Every timestamp version sorts strictly after the reset sentinel `"0"`. */
  lemma VersionAfterZero(v: string)
    requires IsVersion(v)
    ensures Before("0", v) && !AtMost(v, "0")
  {
    assert v[0] in "0123456789";
    if v[0] == '0' {
      assert Before("0"[1..], v[1..]);
    }
  }

  // ---------------------------------------------------------------------------
  // Ledgers
  // ---------------------------------------------------------------------------

  /** Versions strictly increase along the ledger. */
  predicate Ordered(ledger: seq<Migration>) {
    forall i, j :: 0 <= i < j < |ledger| ==> Before(ledger[i].version, ledger[j].version)
  }

  /**
   * Appending a migration whose version sorts after the current tail keeps
   * the ledger ordered. The mock's clock has one-second resolution, so this
   * is a condition on the caller, not a guarantee of `apply_migration`.
   */
  lemma AppendKeepsOrder(ledger: seq<Migration>, m: Migration)
    requires Ordered(ledger)
    requires ledger == [] || Before(ledger[|ledger| - 1].version, m.version)
    ensures Ordered(ledger + [m])
  {
    var s := ledger + [m];
    forall i, j | 0 <= i < j < |s|
      ensures Before(s[i].version, s[j].version)
    {
      if j == |ledger| && i < |ledger| - 1 {
        BeforeTransitive(s[i].version, ledger[|ledger| - 1].version, m.version);
      }
    }
  }

  /**
   * `migrations.filter((m) => m.version <= target)`: the migrations whose
   * version is at most `target`, in ledger order.
   */
  function TruncateTo(ledger: seq<Migration>, target: string): (kept: seq<Migration>)
    ensures |kept| <= |ledger|
    ensures forall m :: m in kept ==> m in ledger && AtMost(m.version, target)
    ensures forall m :: m in ledger && AtMost(m.version, target) ==> m in kept
  {
    if ledger == [] then []
    else
      (if AtMost(ledger[0].version, target) then [ledger[0]] else [])
      + TruncateTo(ledger[1..], target)
  }

  /**
   * The filter works migration by migration: truncating two runs of a ledger
   * one after the other is truncating their concatenation, so the kept
   * migrations stay in ledger order.
   */
  lemma {:induction false} TruncateConcat(a: seq<Migration>, b: seq<Migration>, target: string)
    ensures TruncateTo(a + b, target) == TruncateTo(a, target) + TruncateTo(b, target)
  {
    if a != [] {
      assert (a + b)[0] == a[0];
      assert (a + b)[1..] == a[1..] + b;
      TruncateConcat(a[1..], b, target);
    } else {
      assert a + b == b;
    }
  }

  /** A subsequence with nothing at most `target` is empty. */
  lemma TruncateNone(ledger: seq<Migration>, target: string)
    requires forall m :: m in ledger ==> !AtMost(m.version, target)
    ensures TruncateTo(ledger, target) == []
  {
  }

  /** The tail of an ordered ledger is ordered. */
  lemma OrderedTail(ledger: seq<Migration>)
    requires Ordered(ledger) && ledger != []
    ensures Ordered(ledger[1..])
  {
    var rest := ledger[1..];
    forall i, j | 0 <= i < j < |rest|
      ensures Before(rest[i].version, rest[j].version)
    {
      assert rest[i] == ledger[i + 1] && rest[j] == ledger[j + 1];
    }
  }

  /** When the head of an ordered ledger sorts after `target`, so does every migration, and none is kept. */
  lemma TruncateAfterHead(ledger: seq<Migration>, target: string)
    requires Ordered(ledger) && ledger != [] && Before(target, ledger[0].version)
    ensures TruncateTo(ledger, target) == []
    ensures forall i :: 0 <= i < |ledger| ==> Before(target, ledger[i].version)
  {
    forall i | 0 <= i < |ledger|
      ensures Before(target, ledger[i].version)
    {
      if i > 0 {
        BeforeTransitive(target, ledger[0].version, ledger[i].version);
      }
    }
    forall m | m in ledger
      ensures !AtMost(m.version, target)
    {
      var k :| 0 <= k < |ledger| && ledger[k] == m;
      assert Before(target, ledger[k].version);
    }
    TruncateNone(ledger, target);
  }

  /** The prefix property `TruncateIsPrefix` states, for one ledger. */
  predicate KeepsPrefix(ledger: seq<Migration>, target: string) {
    var kept := TruncateTo(ledger, target);
    && kept == ledger[..|kept|]
    && forall i :: |kept| <= i < |ledger| ==> Before(target, ledger[i].version)
  }

  /** Keeping the head puts it in front of the truncated rest, which keeps the prefix property. */
  lemma TruncateKeepingHead(ledger: seq<Migration>, target: string)
    requires ledger != [] && AtMost(ledger[0].version, target)
    requires KeepsPrefix(ledger[1..], target)
    ensures KeepsPrefix(ledger, target)
  {
    var rest := ledger[1..];
    var tail := TruncateTo(rest, target);
    assert TruncateTo(ledger, target) == [ledger[0]] + tail;
    assert [ledger[0]] + tail == ledger[..|tail| + 1] by {
      assert tail == rest[..|tail|];
    }
    forall i | |tail| + 1 <= i < |ledger|
      ensures Before(target, ledger[i].version)
    {
      assert ledger[i] == rest[i - 1];
    }
  }

  /**
   * On an ordered ledger the truncation is a rollback: it keeps a prefix,
   * and every migration it drops has a version strictly after `target`.
   */
  lemma {:induction false} TruncateIsPrefix(ledger: seq<Migration>, target: string)
    requires Ordered(ledger)
    ensures var kept := TruncateTo(ledger, target);
      && kept == ledger[..|kept|]
      && forall i :: |kept| <= i < |ledger| ==> Before(target, ledger[i].version)
  {
    if ledger != [] {
      if AtMost(ledger[0].version, target) {
        OrderedTail(ledger);
        TruncateIsPrefix(ledger[1..], target);
        TruncateKeepingHead(ledger, target);
      } else {
        TruncateAfterHead(ledger, target);
      }
    }
  }

  /** Truncating an ordered ledger leaves it ordered. */
  lemma TruncateKeepsOrder(ledger: seq<Migration>, target: string)
    requires Ordered(ledger)
    ensures Ordered(TruncateTo(ledger, target))
  {
    TruncateIsPrefix(ledger, target);
  }

  /** Resetting to the sentinel `"0"` empties a ledger of timestamp versions. */
  lemma TruncateToZeroEmpties(ledger: seq<Migration>)
    requires forall m :: m in ledger ==> IsVersion(m.version)
    ensures TruncateTo(ledger, "0") == []
  {
    forall m | m in ledger
      ensures !AtMost(m.version, "0")
    {
      VersionAfterZero(m.version);
    }
    TruncateNone(ledger, "0");
  }

  /** Resetting an ordered ledger to its own head version keeps all of it. */
  lemma TruncateToHeadKeepsAll(ledger: seq<Migration>)
    requires Ordered(ledger) && ledger != []
    ensures TruncateTo(ledger, ledger[|ledger| - 1].version) == ledger
  {
    var target := ledger[|ledger| - 1].version;
    TruncateIsPrefix(ledger, target);
    var kept := TruncateTo(ledger, target);
    if |kept| < |ledger| {
      var v := ledger[|kept|].version;
      if |kept| < |ledger| - 1 {
        BeforeAsymmetric(v, target);
      } else {
        BeforeIrreflexive(target);
      }
    }
  }

  /** The version a new migration gets sorts after the ledger's current tail. */
  predicate FollowsTail(ledger: seq<Migration>, version: string) {
    ledger == [] || Before(ledger[|ledger| - 1].version, version)
  }

  /** A well-formed ledger: timestamp versions, strictly increasing. */
  predicate WellFormed(ledger: seq<Migration>) {
    Ordered(ledger) && forall m :: m in ledger ==> IsVersion(m.version)
  }

  /** Applying a migration stamped after the tail keeps a well-formed ledger well-formed. */
  lemma AppendKeepsWellFormed(ledger: seq<Migration>, m: Migration)
    requires WellFormed(ledger) && IsVersion(m.version) && FollowsTail(ledger, m.version)
    ensures WellFormed(ledger + [m])
  {
    AppendKeepsOrder(ledger, m);
  }

  /** Truncation keeps a well-formed ledger well-formed. */
  lemma TruncateKeepsWellFormed(ledger: seq<Migration>, target: string)
    requires WellFormed(ledger)
    ensures WellFormed(TruncateTo(ledger, target))
  {
    TruncateKeepsOrder(ledger, target);
  }

  /** `migrations.at(-1)?.version`: the head version, absent for an empty ledger. */
  function LastVersion(ledger: seq<Migration>): (r: Option<string>)
    ensures r.None? <==> ledger == []
    ensures r.Some? ==> exists m :: m in ledger && m.version == r.value
  {
    if ledger == [] then None else Some(ledger[|ledger| - 1].version)
  }

  /** On an ordered ledger the reported head version is the greatest one. */
  lemma LastVersionIsGreatest(ledger: seq<Migration>, m: Migration)
    requires Ordered(ledger) && m in ledger
    ensures LastVersion(ledger).Some? && AtMost(m.version, LastVersion(ledger).value)
  {
    var k :| 0 <= k < |ledger| && ledger[k] == m;
    if k < |ledger| - 1 {
      BeforeAsymmetric(m.version, ledger[|ledger| - 1].version);
    } else {
      BeforeIrreflexive(m.version);
    }
  }

  /**
   * `migrations.map(({ version, name }) => ({ version, name }))`: one summary
   * per migration, in ledger order, without the query text.
   */
  function Summaries(ledger: seq<Migration>): (r: seq<MigrationSummary>)
    ensures |r| == |ledger|
    ensures forall i :: 0 <= i < |ledger| ==>
      r[i].version == ledger[i].version && r[i].name == ledger[i].name
  {
    if ledger == [] then []
    else [MigrationSummary(ledger[0].version, ledger[0].name)] + Summaries(ledger[1..])
  }

}
