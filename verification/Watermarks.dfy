/** The per-module watermark file of the sync client: the point up to which a module has been sent,
    and the checkpoint of a failed run.  Every write can fail silently; `written` says whether it
    reached the disk. */
module Watermarks {

  datatype SyncModule = Orders | Products | Customers | Inventory

  /** Ticks of 100 ns since the first instant `DateTime` can hold. */
  type Time = int

  const MIN_TIME: Time := 0
  const TICKS_PER_DAY := 864_000_000_000
  /** 1 January 2000, UTC. */
  const FULL_SYNC_START: Time := 630_822_816_000_000_000

  datatype WatermarkData = WatermarkData(
    lastSyncTime: Time,
    lastSuccessfulSync: Time,
    totalRowsSynced: int,
    syncCount: int,
    resumeOffset: nat,
    resumeWindowEnd: Time)
  {
    predicate HasCheckpoint() {
      resumeOffset > 0 && resumeWindowEnd > MIN_TIME
    }
  }

  const NEW_WATERMARK := WatermarkData(FULL_SYNC_START, MIN_TIME, 0, 0, 0, MIN_TIME)

  datatype File = Missing | Stored(data: WatermarkData) {
    function Load(): WatermarkData {
      match this
      case Missing => NEW_WATERMARK
      case Stored(data) => data
    }

    function Updated(syncTime: Time, rowsSynced: int, written: bool): File {
      var d := Load();
      if written
      then Stored(d.(lastSuccessfulSync := d.lastSyncTime, lastSyncTime := syncTime,
                     totalRowsSynced := d.totalRowsSynced + rowsSynced, syncCount := d.syncCount + 1))
      else this
    }

    function WithCheckpoint(offset: nat, windowEnd: Time, written: bool): File {
      if written then Stored(Load().(resumeOffset := offset, resumeWindowEnd := windowEnd)) else this
    }

    function WithoutCheckpoint(written: bool): File {
      if written && Load().resumeOffset > 0
      then Stored(Load().(resumeOffset := 0, resumeWindowEnd := MIN_TIME))
      else this
    }

    function Purged(): File {
      if Stored? && data.totalRowsSynced == 0 then Missing else this
    }
  }

  class WatermarkService {
    var files: map<SyncModule, WatermarkData>

    function FileOf(m: SyncModule): File
      reads this
    {
      if m in files then Stored(files[m]) else Missing
    }

    /** The service deletes, when it starts, the files of modules that never synced a row. */
    constructor (stored: map<SyncModule, WatermarkData>)
      ensures forall m :: FileOf(m) == (if m in stored then Stored(stored[m]) else Missing).Purged()
      ensures forall m <- stored :: stored[m].totalRowsSynced != 0 ==>
                FileOf(m) == Stored(stored[m]) && GetWatermark(m) == stored[m]
      ensures forall m :: m !in stored || stored[m].totalRowsSynced == 0 ==>
                FileOf(m) == Missing && GetWatermark(m) == WatermarkData(630_822_816_000_000_000, 0, 0, 0, 0, 0)
    {
      files := map m | m in stored && stored[m].totalRowsSynced != 0 :: stored[m];
    }

    function GetWatermark(m: SyncModule): WatermarkData
      reads this
    {
      if m in files then files[m] else NEW_WATERMARK
    }

    method UpdateWatermark(m: SyncModule, syncTime: Time, rowsSynced: int, written: bool)
      modifies this
      ensures FileOf(m) == old(FileOf(m)).Updated(syncTime, rowsSynced, written)
      ensures var before := old(GetWatermark(m));
              written ==>
                m in files && files[m] == WatermarkData(syncTime, before.lastSyncTime,
                                                        before.totalRowsSynced + rowsSynced, before.syncCount + 1,
                                                        before.resumeOffset, before.resumeWindowEnd)
      ensures !written ==> files == old(files)
      ensures forall other :: other != m ==> FileOf(other) == old(FileOf(other))
    {
      var existing := GetWatermark(m);
      existing := existing.(lastSuccessfulSync := existing.lastSyncTime);
      existing := existing.(lastSyncTime := syncTime);
      existing := existing.(totalRowsSynced := existing.totalRowsSynced + rowsSynced);
      existing := existing.(syncCount := existing.syncCount + 1);
      if written {
        files := files[m := existing];
      }
    }

    method SaveCheckpoint(m: SyncModule, offset: nat, windowEnd: Time, written: bool)
      modifies this
      ensures FileOf(m) == old(FileOf(m)).WithCheckpoint(offset, windowEnd, written)
      ensures written ==>
                m in files && files[m] == old(GetWatermark(m)).(resumeOffset := offset, resumeWindowEnd := windowEnd)
      ensures !written ==> files == old(files)
      ensures forall other :: other != m ==> FileOf(other) == old(FileOf(other))
    {
      var existing := GetWatermark(m);
      existing := existing.(resumeOffset := offset);
      existing := existing.(resumeWindowEnd := windowEnd);
      if written {
        files := files[m := existing];
      }
    }

    method ClearCheckpoint(m: SyncModule, written: bool)
      modifies this
      ensures FileOf(m) == old(FileOf(m)).WithoutCheckpoint(written)
      ensures written && old(GetWatermark(m)).resumeOffset > 0 ==>
                m in files && files[m] == old(GetWatermark(m)).(resumeOffset := 0, resumeWindowEnd := 0)
      ensures !written || old(GetWatermark(m)).resumeOffset == 0 ==> files == old(files)
      ensures forall other :: other != m ==> FileOf(other) == old(FileOf(other))
    {
      var existing := GetWatermark(m);
      if existing.resumeOffset > 0 {
        existing := existing.(resumeOffset := 0, resumeWindowEnd := MIN_TIME);
        if written {
          files := files[m := existing];
        }
      }
    }
  }
}
