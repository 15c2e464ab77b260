/**
The row of `crawl_runs` in its two pictures.  `Publication` needs kind, target, scope and owner,
`Admission` only status, owner and age; every statement on the wider row is, seen through the
projection, the statement on the narrower one.
*/
module RunRows {
  import opened Wrappers
  import P = Publication
  import A = Admission

  function StatusOf(status: P.Status): A.Status {
    match status
    case Running => A.Running
    case FullSuccess => A.FullSuccess
    case BoundedSuccess => A.BoundedSuccess
    case _ => A.Closed
  }

  function RowOf(row: P.RunRow): A.RunRow { A.RunRow(StatusOf(row.status), row.scheduler, row.stale) }

  function RowsOf(runs: map<string, P.RunRow>): map<string, A.RunRow> { map key | key in runs :: RowOf(runs[key]) }

  /** A start that is accepted writes the same marker in both pictures; the narrower picture refuses
      only what the wider one refuses as well. */
  lemma StartAgrees(store: P.Store, key: string, r: P.Request)
    ensures var wide := P.StartRun(store, key, r);
      var narrow := A.StartRow(RowsOf(store.runs), A.Plan(key, r.scheduler, r.anew));
      && (wide.Success? ==> narrow == Some(RowOf(wide.value)))
      && (narrow.None? ==> wide.Failure?)
  {
    if key in store.runs { assert RowsOf(store.runs)[key] == RowOf(store.runs[key]); }
  }

  /** Finishing and cleaning up agree, and rejecting is closing, if it is anything. */
  lemma ClosingAgrees(runs: map<string, P.RunRow>, key: string, status: P.Status)
    requires key in runs && !status.Running?
    ensures RowOf(P.FinishRun(runs[key], status)) == A.Finish(RowOf(runs[key]), StatusOf(status))
    ensures RowOf(P.CleanupRun(runs[key])) == A.Cleaned(RowsOf(runs))[key]
    ensures RowOf(P.RejectRun(runs[key])) in {RowOf(runs[key]), A.Finish(RowOf(runs[key]), A.Closed)}
  {
    assert RowsOf(runs)[key] == RowOf(runs[key]);
  }
}
