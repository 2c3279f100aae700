/** `lockout_seed_score` of `verify_enrolment_pages_live.py`: a score that locks a probe out from
    whatever address it logs in. */
module LockoutSeed {
  import opened Optional

  /** A reputation row; a missing score counts 0. */
  datatype Row = Row(identifier: Option<string>, ip: Option<string>, score: Option<int>)

  datatype Policy = Policy(checkUsername: bool, checkIp: bool, threshold: int)

  const LOCKOUT_SCORE_MARGIN := 5

  function Score(row: Row): int { if row.score.Some? then row.score.value else 0 }

  /** `matched_total`. */
  function MatchedTotal(rows: seq<Row>, probe: string, ip: Option<string>): int {
    if rows == [] then 0
    else
      var row := rows[|rows| - 1];
      var matches := row.identifier == Some(probe) || (ip.Some? && row.ip == ip);
      MatchedTotal(rows[..|rows| - 1], probe, ip) + if matches then Score(row) else 0
  }

  /** `str(row.get("ip"))`. */
  function IpText(row: Row): string { if row.ip.Some? then row.ip.value else "None" }

  /** The largest of `matched_total(None)` and the totals of the rows' addresses. */
  function Highest(rows: seq<Row>, probe: string, listed: seq<Row>): (r: int)
    ensures MatchedTotal(rows, probe, None) <= r
    ensures forall i :: 0 <= i < |listed| ==> MatchedTotal(rows, probe, Some(IpText(listed[i]))) <= r
    ensures r == MatchedTotal(rows, probe, None) ||
      exists i :: 0 <= i < |listed| && r == MatchedTotal(rows, probe, Some(IpText(listed[i])))
  {
    if listed == [] then MatchedTotal(rows, probe, None)
    else
      var front := listed[..|listed| - 1];
      assert forall i :: 0 <= i < |front| ==> front[i] == listed[i];
      var rest := Highest(rows, probe, front);
      var last := MatchedTotal(rows, probe, Some(IpText(listed[|listed| - 1])));
      if last > rest then last else rest
  }

  function CurrentTotal(policy: Policy, rows: seq<Row>, probe: string): int {
    Highest(rows, probe, if policy.checkIp then rows else [])
  }

  /** `None` is the refusal of a policy that does not check the username. */
  function LockoutSeedScore(policy: Policy, rows: seq<Row>, probe: string): (r: Option<int>)
    ensures r == None <==> !policy.checkUsername
  {
    if !policy.checkUsername then None
    else
      var current := CurrentTotal(policy, rows, probe);
      Some(policy.threshold - LOCKOUT_SCORE_MARGIN - if current > 0 then current else 0)
  }

  /** What the policy itself sums for a client at `ip` who logs in as `username`. */
  function PolicySum(policy: Policy, rows: seq<Row>, ip: string, username: string): int {
    if rows == [] then 0
    else
      var row := rows[|rows| - 1];
      var matches := (policy.checkIp && row.ip == Some(ip)) || (policy.checkUsername && row.identifier == Some(username));
      PolicySum(policy, rows[..|rows| - 1], ip, username) + if matches then Score(row) else 0
  }

  predicate Listed(rows: seq<Row>, ip: string) {
    exists i :: 0 <= i < |rows| && rows[i].ip == Some(ip)
  }

  lemma {:induction false} ListedSum(policy: Policy, rows: seq<Row>, ip: string, probe: string)
    requires policy.checkUsername && policy.checkIp
    ensures PolicySum(policy, rows, ip, probe) == MatchedTotal(rows, probe, Some(ip))
  {
    if rows != [] { ListedSum(policy, rows[..|rows| - 1], ip, probe); }
  }

  lemma {:induction false} UnlistedSum(policy: Policy, rows: seq<Row>, ip: string, probe: string)
    requires policy.checkUsername && (policy.checkIp ==> !Listed(rows, ip))
    ensures PolicySum(policy, rows, ip, probe) == MatchedTotal(rows, probe, None)
  {
    if rows != [] {
      var front, last := rows[..|rows| - 1], rows[|rows| - 1];
      assert forall i :: 0 <= i < |front| ==> front[i] == rows[i];
      assert policy.checkIp ==> last.ip != Some(ip);
      UnlistedSum(policy, front, ip, probe);
    }
  }

  lemma SumIsBounded(policy: Policy, rows: seq<Row>, ip: string, probe: string)
    requires policy.checkUsername
    ensures PolicySum(policy, rows, ip, probe) <= CurrentTotal(policy, rows, probe)
  {
    if policy.checkIp && Listed(rows, ip) {
      ListedSum(policy, rows, ip, probe);
      var i :| 0 <= i < |rows| && rows[i].ip == Some(ip);
      assert IpText(rows[i]) == ip;
    } else {
      UnlistedSum(policy, rows, ip, probe);
    }
  }

  lemma SeededSum(policy: Policy, rows: seq<Row>, ip: string, probe: string, seeded: Row)
    requires policy.checkUsername && seeded.identifier == Some(probe)
    ensures PolicySum(policy, rows + [seeded], ip, probe) == PolicySum(policy, rows, ip, probe) + Score(seeded)
  {
    assert (rows + [seeded])[..|rows|] == rows;
  }

  /** From every address, listed or not, the policy's sum with the seeded row is at least the margin
      below the threshold. */
  lemma SeedLocksOutEveryClient(policy: Policy, rows: seq<Row>, probe: string, ip: string, seededIp: Option<string>)
    requires policy.checkUsername
    ensures var seed := LockoutSeedScore(policy, rows, probe);
      && seed.Some?
      && PolicySum(policy, rows + [Row(Some(probe), seededIp, seed)], ip, probe) <= policy.threshold - LOCKOUT_SCORE_MARGIN
  {
    var seed := LockoutSeedScore(policy, rows, probe);
    SeededSum(policy, rows, ip, probe, Row(Some(probe), seededIp, seed));
    SumIsBounded(policy, rows, ip, probe);
  }

  /** A text longer than every listed address. */
  lemma {:induction false} UnlistedAddress(rows: seq<Row>) returns (ip: string)
    ensures forall i :: 0 <= i < |rows| && rows[i].ip.Some? ==> |rows[i].ip.value| < |ip|
  {
    if rows == [] {
      ip := "";
    } else {
      var shorter := UnlistedAddress(rows[..|rows| - 1]);
      ip := shorter + "." + IpText(rows[|rows| - 1]);
    }
  }

  lemma HighestIsSomeClients(policy: Policy, rows: seq<Row>, probe: string) returns (ip: string)
    requires policy.checkUsername
    ensures PolicySum(policy, rows, ip, probe) == CurrentTotal(policy, rows, probe)
  {
    var r := CurrentTotal(policy, rows, probe);
    if r == MatchedTotal(rows, probe, None) {
      ip := UnlistedAddress(rows);
      UnlistedSum(policy, rows, ip, probe);
    } else {
      var i :| 0 <= i < |rows| && r == MatchedTotal(rows, probe, Some(IpText(rows[i])));
      ip := IpText(rows[i]);
      ListedSum(policy, rows, ip, probe);
    }
  }

  predicate Attains(policy: Policy, rows: seq<Row>, probe: string, ip: string, seeded: Row) {
    PolicySum(policy, rows + [seeded], ip, probe) == policy.threshold - LOCKOUT_SCORE_MARGIN
  }

  /** The seed cancels no more than it has to: some client sits exactly at the margin, unless every
      total that the seed has to meet is negative already. */
  lemma SeedIsTight(policy: Policy, rows: seq<Row>, probe: string, seededIp: Option<string>)
    requires policy.checkUsername
    ensures var seeded := Row(Some(probe), seededIp, LockoutSeedScore(policy, rows, probe));
      (exists ip :: Attains(policy, rows, probe, ip, seeded)) <==> CurrentTotal(policy, rows, probe) >= 0
  {
    var seeded := Row(Some(probe), seededIp, LockoutSeedScore(policy, rows, probe));
    var best := HighestIsSomeClients(policy, rows, probe);
    SeededSum(policy, rows, best, probe, seeded);
    assert CurrentTotal(policy, rows, probe) >= 0 ==> Attains(policy, rows, probe, best, seeded);
    forall ip
      ensures Attains(policy, rows, probe, ip, seeded) ==> CurrentTotal(policy, rows, probe) >= 0
    {
      SeededSum(policy, rows, ip, probe, seeded);
      SumIsBounded(policy, rows, ip, probe);
    }
  }
}
