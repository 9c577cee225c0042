/** searchShuttles: shuttles whose departureTime label equals the query,
    compared as strings. */
module SearchController {
  import opened Common
  import opened Schema
  import opened Db
  import opened ShuttleController

  datatype SearchReply = Found(shuttles: seq<ShuttleDoc>) | SearchFailed(status: nat, message: string)

  function LabelIs(departureTime: string): Shuttle -> bool
  {
    (s: Shuttle) => s.departureTime == departureTime
  }

  /** `departureTime` is the query parameter; "" stands for a missing one. */
  function Search(st: Snapshot, departureTime: string): (r: SearchReply)
    requires WellFormed(st)
    ensures departureTime == "" ==> r == SearchFailed(400, "Departure time is required")
    ensures departureTime != "" && r.SearchFailed? ==> r == SearchFailed(404, "No shuttles found for the specified time")
    ensures departureTime != "" ==>
              (r.SearchFailed? <==> forall id :: id in st.shuttles ==> st.shuttles[id].departureTime != departureTime)
    ensures r.Found? ==> |r.shuttles| > 0
    ensures r.Found? ==> forall i :: 0 <= i < |r.shuttles| ==>
              r.shuttles[i].id in st.shuttles && r.shuttles[i].shuttle == st.shuttles[r.shuttles[i].id]
              && r.shuttles[i].shuttle.departureTime == departureTime
    ensures r.Found? ==> forall id :: id in st.shuttles && st.shuttles[id].departureTime == departureTime
                                      ==> exists i :: 0 <= i < |r.shuttles| && r.shuttles[i].id == id
    ensures r.Found? ==> forall i, j :: 0 <= i < j < |r.shuttles| ==> r.shuttles[i].id < r.shuttles[j].id
  {
    if departureTime == "" then SearchFailed(400, "Departure time is required")
    else
      LabelDocs(st, departureTime);
      var docs := Docs(st, IdsWhere(st.shuttles, st.nextId, LabelIs(departureTime)));
      if docs == [] then SearchFailed(404, "No shuttles found for the specified time")
      else Found(docs)
  }

  /** The documents the query fetches, stated on the label itself. */
  lemma LabelDocs(st: Snapshot, departureTime: string)
    requires WellFormed(st)
    ensures var r := Docs(st, IdsWhere(st.shuttles, st.nextId, LabelIs(departureTime)));
            && (forall i :: 0 <= i < |r| ==> r[i].id in st.shuttles && r[i].shuttle == st.shuttles[r[i].id]
                                             && r[i].shuttle.departureTime == departureTime)
            && (forall id :: id in st.shuttles && st.shuttles[id].departureTime == departureTime
                             ==> exists i :: 0 <= i < |r| && r[i].id == id)
            && (forall i, j :: 0 <= i < j < |r| ==> r[i].id < r[j].id)
            && (r == [] <==> forall id :: id in st.shuttles ==> st.shuttles[id].departureTime != departureTime)
  {
    DocsWhere(st, LabelIs(departureTime));
  }

  /** The search is exact: a label that differs in any character, even only
      in case or surrounding spaces, finds none of the shuttles the other
      label finds. */
  lemma SearchIsExact(st: Snapshot, a: string, b: string)
    requires WellFormed(st) && a != "" && b != "" && a != b
    requires Search(st, a).Found? && Search(st, b).Found?
    ensures forall i, j :: 0 <= i < |Search(st, a).shuttles| && 0 <= j < |Search(st, b).shuttles|
                           ==> Search(st, a).shuttles[i].id != Search(st, b).shuttles[j].id
  {
  }
}
