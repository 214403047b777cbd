/** The `verification_codes` table shared by the issuing and the validating edge
    functions. Time is a whole number of minutes; a row's id is its position. */
module CodeStore {

  datatype CodeRow = CodeRow(email: string, code: string, ip: string,
                             createdAt: int, expiresAt: int, used: bool)

  /** The column a rate limit counts by. */
  datatype Key = ByEmail(email: string) | ByIp(ip: string)

  const Hour := 60
  const EmailHourlyLimit := 3
  const IpHourlyLimit := 5

  predicate HasKey(r: CodeRow, k: Key) {
    match k
    case ByEmail(e) => r.email == e
    case ByIp(ip) => r.ip == ip
  }

  /** How many codes may be issued per `k` in a trailing hour. */
  function Limit(k: Key): nat {
    match k
    case ByEmail(_) => EmailHourlyLimit
    case ByIp(_) => IpHourlyLimit
  }

  /** `select count(*) where <key column> = k and created_at >= since`. */
  function CountSince(rows: seq<CodeRow>, k: Key, since: int): (n: nat)
    ensures n <= |rows|
    decreases |rows|
  {
    if rows == [] then 0
    else
      var last := rows[|rows| - 1];
      CountSince(rows[..|rows| - 1], k, since) + (if HasKey(last, k) && last.createdAt >= since then 1 else 0)
  }

  /** A later cut-off never counts more rows. */
  lemma {:induction false} CountSinceMonotone(rows: seq<CodeRow>, k: Key, since: int, since': int)
    requires since <= since'
    ensures CountSince(rows, k, since') <= CountSince(rows, k, since)
    decreases |rows|
  {
    if rows != [] {
      CountSinceMonotone(rows[..|rows| - 1], k, since, since');
    }
  }

  /** `a` and `b` agree on every column the rate limits look at. */
  predicate SameKeys(a: seq<CodeRow>, b: seq<CodeRow>) {
    |a| == |b| &&
    forall i :: 0 <= i < |a| ==> a[i].email == b[i].email && a[i].ip == b[i].ip && a[i].createdAt == b[i].createdAt
  }

  /** The count only looks at the email, ip and creation time of each row. */
  lemma {:induction false} CountSinceSameKeys(a: seq<CodeRow>, b: seq<CodeRow>, k: Key, since: int)
    requires SameKeys(a, b)
    ensures CountSince(a, k, since) == CountSince(b, k, since)
    decreases |a|
  {
    if a != [] {
      assert SameKeys(a[..|a| - 1], b[..|b| - 1]);
      CountSinceSameKeys(a[..|a| - 1], b[..|b| - 1], k, since);
    }
  }

  /** Every row was admitted by both hourly limits: when it was inserted, fewer than
      `Limit(k)` earlier rows with each of its keys had been created in the hour before. */
  ghost predicate Capped(rows: seq<CodeRow>) {
    forall j :: 0 <= j < |rows| ==> Admitted(rows, j)
  }

  /** Row `j` was admitted by both hourly limits. */
  ghost predicate Admitted(rows: seq<CodeRow>, j: nat)
    requires j < |rows|
  {
    forall k :: HasKey(rows[j], k) ==> CountSince(rows[..j], k, rows[j].createdAt - Hour) < Limit(k)
  }

  /** Whether a row was admitted depends only on the rows before it and itself. */
  lemma AdmittedSamePrefix(a: seq<CodeRow>, b: seq<CodeRow>, j: nat)
    requires j < |a| && j < |b| && a[..j + 1] == b[..j + 1]
    requires Admitted(a, j)
    ensures Admitted(b, j)
  {
    assert a[..j] == a[..j + 1][..j] == b[..j + 1][..j] == b[..j];
    assert a[j] == a[..j + 1][j] == b[..j + 1][j] == b[j];
  }

  lemma CappedPrefix(rows: seq<CodeRow>, m: nat)
    requires Capped(rows) && m <= |rows|
    ensures Capped(rows[..m])
  {
    forall j | 0 <= j < m ensures Admitted(rows[..m], j) {
      assert rows[..m][..j + 1] == rows[..j + 1];
      AdmittedSamePrefix(rows, rows[..m], j);
    }
  }

  /** The hourly limits hold over every trailing hour, not only at the moments codes were
      issued: if no row was created after `since + Hour`, at most `Limit(k)` rows with key
      `k` were created at or after `since`. */
  lemma {:induction false} CapBoundsRecentCount(rows: seq<CodeRow>, k: Key, since: int)
    requires Capped(rows)
    requires forall i :: 0 <= i < |rows| ==> rows[i].createdAt <= since + Hour
    ensures CountSince(rows, k, since) <= Limit(k)
    decreases |rows|
  {
    if rows != [] {
      var n := |rows| - 1;
      var prefix, last := rows[..n], rows[n];
      assert rows[..n] == prefix;
      if HasKey(last, k) && last.createdAt >= since {
        CountSinceMonotone(prefix, k, last.createdAt - Hour, since);
        assert Admitted(rows, n);
        assert CountSince(prefix, k, last.createdAt - Hour) < Limit(k);
      } else {
        CappedPrefix(rows, n);
        assert forall i :: 0 <= i < |prefix| ==> prefix[i].createdAt <= since + Hour;
        CapBoundsRecentCount(prefix, k, since);
      }
    }
  }

  /** The table. Rows are only ever appended (issuance) or have `used` set (validation). */
  class CodeTable {
    var rows: seq<CodeRow>

    ghost predicate Valid()
      reads this
    {
      Capped(rows)
    }

    constructor ()
      ensures Valid() && rows == []
    {
      rows := [];
    }
  }
}
