/**
 * The two scripts together: the generator writes the three extracts that
 * the consolidation script then reads back.
 */
module DemoPipeline {
  import opened Results
  import opened Calendar
  import opened Frames
  import opened DemoData
  import opened Consolidation

  /** The consolidation script reads exactly the files the generator writes, in the order written. */
  lemma SameFileNames()
    ensures FileNames == [MonthlyFile, LastWeekFile, ThisWeekFile]
  {
  }

  /**
   * When every generated extract reads back as written, the master frame
   * has 8000 + 1000 + 500 rows: the monthly rows, then last week's, then
   * this week's.
   */
  lemma GeneratedFilesConsolidate(today: Date, written: map<string, Frame>, read: string -> ReadOutcome)
    requires Valid(today) && ComputeAnchors(today).Success?
    requires MonthlyFile in written && LastWeekFile in written && ThisWeekFile in written
    requires IsMockFrame(written[MonthlyFile], FirstOfMonth(today), 8000)
    requires IsMockFrame(written[LastWeekFile], ComputeAnchors(today).value.startOfLastWeek, 1000)
    requires IsMockFrame(written[ThisWeekFile], ComputeAnchors(today).value.startOfThisWeek, 500)
    requires forall name :: name in written ==> read(name) == Loaded(written[name])
    ensures Consolidated(FileNames, read).Success?
    ensures var master := Consolidated(FileNames, read).value;
      && |master.rows| == 9500
      && master.rows == written[MonthlyFile].rows + written[LastWeekFile].rows + written[ThisWeekFile].rows
  {
    AllFilesLoaded(read, written[MonthlyFile], written[LastWeekFile], written[ThisWeekFile]);
  }
}
