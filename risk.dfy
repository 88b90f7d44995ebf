/**
 * The store's risk-customer lists: the same finished reservations as the
 * history lists, each shown as a blacklist candidate. Store-note updates from
 * these views go through Notes.UpdateStoreNote.
 */
module Risk {
  import opened Outcomes
  import opened Records
  import opened ReservationIds
  import opened Directory
  import opened Database
  import opened History

  /** One row of a risk list. */
  datatype RiskRow = RiskRow(reservationId: string, userName: string, userPhone: string,
                             kind: ServiceKind, date: int, blacklistStatus: bool)

  function RiskRowOf(kind: ServiceKind, r: Reservation): RiskRow
  {
    RiskRow(r.reservationId, r.userName, r.userPhone, kind, ListedDate(r.detail), true)
  }

  function RiskRows(kind: ServiceKind, page: seq<Reservation>): (r: seq<RiskRow>)
    ensures |r| == |page| && forall j :: 0 <= j < |page| ==> r[j] == RiskRowOf(kind, page[j])
  {
    seq(|page|, j requires 0 <= j < |page| => RiskRowOf(kind, page[j]))
  }

  /** The risk list of one kind: the history query, shown as risk rows. */
  function RiskList(kind: ServiceKind, stores: seq<StoreRow>, rows: seq<Reservation>, serviceType: string, storeId: Option<nat>): Outcome<seq<RiskRow>>
  {
    match ListQuery(kind, stores, rows, serviceType, storeId)
    case Fail(f) => Fail(f)
    case Success(page) => Success(RiskRows(kind, page))
  }

  /** The risk list and the history list of a kind answer alike and list the
      same reservations in the same order; every risk row is flagged. */
  lemma RiskListMirrorsHistory(kind: ServiceKind, stores: seq<StoreRow>, rows: seq<Reservation>, serviceType: string, storeId: Option<nat>)
    ensures var risk := RiskList(kind, stores, rows, serviceType, storeId);
      var history := HistoryList(kind, stores, rows, serviceType, storeId);
      risk.Success? == history.Success?
      && (risk.Fail? ==> risk.failure == history.failure)
      && (risk.Success? ==> (|risk.value| == |history.value|
        && forall j :: 0 <= j < |risk.value| ==> (risk.value[j].blacklistStatus
          && risk.value[j].reservationId == history.value[j].reservationId
          && risk.value[j].date == history.value[j].date
          && history.value[j].status == Finished)))
  {
    var q := ListQuery(kind, stores, rows, serviceType, storeId);
    if q.Success? {
      forall j | 0 <= j < |q.value|
        ensures q.value[j].status == Finished
      {
        var f := FinishedOfStore(rows, StoreById(stores, storeId.value).value.storeName);
        assert q.value[j] == f[|f| - 1 - j];
        assert q.value[j] in f;
      }
    }
  }

  /** The risk list endpoint on the database. */
  method ListRisk(db: Db, kind: ServiceKind, serviceType: string, storeId: Option<nat>) returns (r: Outcome<seq<RiskRow>>)
    ensures r == RiskList(kind, db.stores, TableOf(kind, db.groomings, db.boardings), serviceType, storeId)
  {
    var query := ListQuery(kind, db.stores, TableOf(kind, db.groomings, db.boardings), serviceType, storeId);
    if query.Fail? {
      return Fail(query.failure);
    }
    var page := query.value;
    var data: seq<RiskRow> := [];
    for k := 0 to |page|
      invariant |data| == k
      invariant forall j :: 0 <= j < k ==> data[j] == RiskRowOf(kind, page[j])
    {
      data := data + [RiskRowOf(kind, page[k])];
    }
    assert data == RiskRows(kind, page);
    r := Success(data);
  }
}
