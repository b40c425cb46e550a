/**
 * The search-index migrator: its one migration runs unless its version is
 * already recorded in the migrations table.
 */
module Migrator {
  import opened Wrappers
  import opened AppErrors
  import opened PendingRunner

  /** The migration's name is its type name without the module path. */
  const VERSION_02022025 := "Version02022025"

  const MIGRATIONS := [VERSION_02022025]

  /**
   * `migrate_up`: an applied migration is skipped without writing anything;
   * otherwise it runs, and only its success records its version.
   */
  method MigrateUp(table: RecordTable, up: string -> Result<(), AppError>)
    returns (r: Result<(), AppError>, ran: seq<string>)
    modifies table
    ensures VERSION_02022025 in old(table.recorded) ==>
      r.Ok? && ran == [] && table.recorded == old(table.recorded) && table.inserts == old(table.inserts)
    ensures VERSION_02022025 !in old(table.recorded) ==> ran == MIGRATIONS
    ensures VERSION_02022025 !in old(table.recorded) && up(VERSION_02022025).Ok? ==>
      r.Ok? && table.recorded == old(table.recorded) + MIGRATIONS && table.inserts == old(table.inserts) + 1
    ensures VERSION_02022025 !in old(table.recorded) && up(VERSION_02022025).Err? ==>
      r == Err(up(VERSION_02022025).error) &&
      table.recorded == old(table.recorded) && table.inserts == old(table.inserts)
  {
    ghost var p := Pending(MIGRATIONS, table.recorded);
    assert MIGRATIONS[1..] == [];
    r, ran := table.RunPending(MIGRATIONS, up);
    if VERSION_02022025 !in old(table.recorded) {
      assert p == MIGRATIONS;
    }
  }
}
