/**
 * The server actions that save and read the metadata of an interview in
 * the `interviewData` document collection, keyed by interview id.
 */
module InterviewActions {
  import opened Base

  /** A stored record; `None` stands for the JSON `null` of an optional field. */
  datatype InterviewData = InterviewData(
    userName: string,
    position: string,
    positionDescription: Option<string>,
    cvContent: Option<string>,
    createdAt: string)

  /** The arguments of a save; `None` is an omitted optional property. */
  datatype SaveParams = SaveParams(
    interviewId: string,
    userName: string,
    position: string,
    positionDescription: Option<string>,
    cvContent: Option<string>)

  datatype SaveResult = SaveResult(success: bool)

  /** `value || null`. */
  function OrNull(v: Option<string>): Option<string> {
    if Truthy(v) then v else None
  }

  /** The record a save writes; `now` is the ISO timestamp of the call. */
  function BuildRecord(p: SaveParams, now: string): InterviewData {
    InterviewData(p.userName, p.position, OrNull(p.positionDescription), OrNull(p.cvContent), now)
  }

  /** The collection's answer to a read: the record under `id`, if any. */
  function Lookup(m: map<string, InterviewData>, id: string): Option<InterviewData> {
    if id in m then Some(m[id]) else None
  }

  /**
   * The record keeps the caller's name, position and timestamp; an omitted
   * or empty optional field is stored as null and a non-empty one as given,
   * so no optional field is ever stored as the empty string.
   */
  lemma BuildRecordSpec(p: SaveParams, now: string)
    ensures var r := BuildRecord(p, now);
      && r.userName == p.userName && r.position == p.position && r.createdAt == now
      && (r.positionDescription.None? <==> !Truthy(p.positionDescription))
      && (r.positionDescription.Some? ==> r.positionDescription == p.positionDescription)
      && (r.cvContent.None? <==> !Truthy(p.cvContent))
      && (r.cvContent.Some? ==> r.cvContent == p.cvContent)
      && r.positionDescription != Some("") && r.cvContent != Some("")
  {
  }

  /** Saving a stored record's own fields again under the same timestamp rebuilds that record. */
  lemma BuildRecordStable(p: SaveParams, now: string)
    ensures var r := BuildRecord(p, now);
      BuildRecord(SaveParams(p.interviewId, r.userName, r.position, r.positionDescription, r.cvContent), now) == r
  {
  }

  /** The collection, behind a database handle that is missing when the SDK was not initialised. */
  class InterviewStore {
    const dbReady: bool
    var interviewData: map<string, InterviewData>

    constructor (dbReady: bool, initial: map<string, InterviewData>)
      ensures this.dbReady == dbReady && interviewData == initial
    {
      this.dbReady := dbReady;
      interviewData := initial;
    }

    /**
     * Saves the record under the interview id, replacing any earlier one, and
     * reports success; without a database, or when the write fails, nothing
     * is written and the result is a failure.
     */
    method SaveInterviewData(params: SaveParams, now: string, writeFails: bool) returns (r: SaveResult)
      modifies this
      ensures r.success <==> dbReady && !writeFails
      ensures r.success ==> Lookup(interviewData, params.interviewId) == Some(BuildRecord(params, now))
      ensures r.success ==> interviewData == old(interviewData)[params.interviewId := BuildRecord(params, now)]
      ensures forall id :: id != params.interviewId ==> Lookup(interviewData, id) == Lookup(old(interviewData), id)
      ensures !r.success ==> interviewData == old(interviewData)
    {
      if !dbReady {
        return SaveResult(false);
      }
      if writeFails {
        return SaveResult(false);
      }
      interviewData := interviewData[params.interviewId := BuildRecord(params, now)];
      r := SaveResult(true);
    }

    /** Reads the record under the id: null without a database, when the read fails, or when there is none. */
    method GetInterviewData(interviewId: string, readFails: bool) returns (r: Option<InterviewData>)
      ensures r.Some? <==> dbReady && !readFails && interviewId in interviewData
      ensures r.Some? ==> r.value == interviewData[interviewId]
    {
      if !dbReady {
        return None;
      }
      if readFails {
        return None;
      }
      r := Lookup(interviewData, interviewId);
    }
  }

  /** A save that succeeded followed by a successful read of the same id yields the saved record. */
  method SaveThenGet(store: InterviewStore, params: SaveParams, now: string) returns (saved: SaveResult, read: Option<InterviewData>)
    requires store.dbReady
    modifies store
    ensures saved.success && read == Some(BuildRecord(params, now))
  {
    saved := store.SaveInterviewData(params, now, false);
    read := store.GetInterviewData(params.interviewId, false);
  }

  /**
   * Two successful saves: under one id the second record replaces the first
   * (last write wins); under different ids both records are readable, and the
   * collection is the same whichever save ran first. Every other id keeps its
   * record.
   */
  method SaveTwice(store: InterviewStore, p: SaveParams, q: SaveParams, t: string, u: string)
      returns (first: SaveResult, second: SaveResult)
    requires store.dbReady
    modifies store
    ensures first.success && second.success
    ensures p.interviewId == q.interviewId ==>
      store.interviewData == old(store.interviewData)[q.interviewId := BuildRecord(q, u)]
    ensures p.interviewId != q.interviewId ==>
      && Lookup(store.interviewData, p.interviewId) == Some(BuildRecord(p, t))
      && Lookup(store.interviewData, q.interviewId) == Some(BuildRecord(q, u))
      && store.interviewData == old(store.interviewData)[q.interviewId := BuildRecord(q, u)][p.interviewId := BuildRecord(p, t)]
    ensures forall id :: id != p.interviewId && id != q.interviewId ==>
      Lookup(store.interviewData, id) == Lookup(old(store.interviewData), id)
  {
    first := store.SaveInterviewData(p, t, false);
    second := store.SaveInterviewData(q, u, false);
  }
}
