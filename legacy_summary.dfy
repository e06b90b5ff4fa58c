// The older monthly-summary service. Its status rule and its upsert are the module
// copy's (MonthlySummaries.CalculateStatus and MonthlySummaries.UpsertMonthlySummary);
// `calculateMonthlySummary` is the same no-op (MonthlySummaries.CalculateMonthlySummary).
// What differs are the two entry points the older accounts service calls: both reject.
module LegacySummaries {
  import opened Common
  import opened Store
  import MonthlySummaries

  const NotImplemented := "Not implemented yet - MonthlySummary model not available"

  /** generateSummariesForAccount: rejects, whatever the account and months, and writes nothing. */
  method GenerateSummariesForAccount(db: Db, accountId: Id, months: seq<MonthlySummaries.Period>)
    returns (r: Result<()>)
    ensures r == Err(Failed(NotImplemented))
  {
    r := Err(Failed(NotImplemented));
  }

  /** recalculateSummariesForMonths: rejects, whatever the user and months, and writes nothing. */
  method RecalculateSummariesForMonths(db: Db, userId: Id, months: seq<MonthlySummaries.Period>)
    returns (r: Result<()>)
    ensures r.Err? && r.error.Failed? && r.error.code == NotImplemented
  {
    r := Err(Failed(NotImplemented));
  }
}
