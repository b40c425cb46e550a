/**
 * The fixture executor: the currency fixture, then the admin fixture, each
 * run once and recorded in the fixtures table.
 */
module FixtureExecutor {
  import opened Wrappers
  import opened AppErrors
  import opened PendingRunner

  const CURRENCY_FIXTURE := "InitialCurrencyFixture06032025"
  const ADMIN_FIXTURE := "AdminFixture06032025"

  const FIXTURES := [CURRENCY_FIXTURE, ADMIN_FIXTURE]

  /**
   * `execute`: the pending fixtures run in list order; a failure is returned
   * and leaves the table as it was; after a success both fixtures are
   * recorded.
   */
  method Execute(table: RecordTable, run: string -> Result<(), AppError>)
    returns (r: Result<(), AppError>, ran: seq<string>)
    modifies table
    ensures |ran| <= |Pending(FIXTURES, old(table.recorded))| && ran == Pending(FIXTURES, old(table.recorded))[..|ran|]
    ensures r.Ok? ==> ran == Pending(FIXTURES, old(table.recorded)) &&
                      table.recorded == old(table.recorded) + ran &&
                      CURRENCY_FIXTURE in table.recorded && ADMIN_FIXTURE in table.recorded
    ensures r.Err? ==> ran != [] && run(ran[|ran| - 1]).Err? && r == Err(run(ran[|ran| - 1]).error) &&
                       table.recorded == old(table.recorded) && table.inserts == old(table.inserts)
    ensures CURRENCY_FIXTURE !in old(table.recorded) && run(CURRENCY_FIXTURE).Err? ==>
      ran == [CURRENCY_FIXTURE] && r.Err?
  {
    ghost var p := Pending(FIXTURES, table.recorded);
    r, ran := table.RunPending(FIXTURES, run);
    RerunFindsNothing(FIXTURES, old(table.recorded));
    if r.Ok? {
      NotPendingMeansRecorded(FIXTURES, old(table.recorded), 0);
      NotPendingMeansRecorded(FIXTURES, old(table.recorded), 1);
    }
    if CURRENCY_FIXTURE !in old(table.recorded) {
      assert p[0] == CURRENCY_FIXTURE;
    }
  }

}
