/** Choosing the entries of a directory sector for a new run (fat.c:380-394, 587-601). */
module SlotScan {
  import opened Bytes
  import opened LongNames
  import opened Directories

  /** The count of fat.c:382-391: deleted entries one by one, and at every zero entry everything
      up to the end of the sector. Entries in use neither count nor reset it. */
  function RoomFrom(dirent: seq<Entry>, i: nat, len: nat, n: nat): nat
    requires |dirent| == SLOTS && i <= SLOTS
    decreases SLOTS - i
  {
    if i == SLOTS || len > n then len
    else if dirent[i][0] == 0 then RoomFrom(dirent, i + 1, len + (SLOTS - i), n)
    else if dirent[i][0] == DELETED then RoomFrom(dirent, i + 1, len + 1, n)
    else RoomFrom(dirent, i + 1, len, n)
  }

  /** The first entry from `i` on that is not in use. */
  function FreeIndex(dirent: seq<Entry>, i: nat): (k: nat)
    requires |dirent| == SLOTS && i <= SLOTS
    ensures i <= k <= SLOTS && (k < SLOTS ==> !Live(dirent[k]))
    ensures forall l :: i <= l < k ==> Live(dirent[l])
    decreases SLOTS - i
  {
    if i == SLOTS || !Live(dirent[i]) then i else FreeIndex(dirent, i + 1)
  }

  /** The entry at which creation puts a run of `n` + 1 entries, looking from sector `m` on. */
  function PickSlot(es: seq<Entry>, n: nat, m: nat): (p: Option<nat>)
    decreases |es| - SLOTS * m
  {
    if SLOTS * (m + 1) > |es| then None
    else
      var dirent := es[SLOTS * m..SLOTS * (m + 1)];
      if RoomFrom(dirent, 0, 0, n) > n then Some(SLOTS * m + FreeIndex(dirent, 0)) else PickSlot(es, n, m + 1)
  }

  lemma {:induction false} RoomMeansFree(dirent: seq<Entry>, i: nat, len: nat, n: nat)
    requires |dirent| == SLOTS && i <= SLOTS && len <= n < RoomFrom(dirent, i, len, n)
    ensures FreeIndex(dirent, i) < SLOTS
    decreases SLOTS - i
  {
    if i < SLOTS && Live(dirent[i]) {
      RoomMeansFree(dirent, i + 1, len, n);
    }
  }

  lemma {:induction false} PickedLater(es: seq<Entry>, n: nat, m: nat)
    ensures PickSlot(es, n, m).Some? ==> SLOTS * m <= PickSlot(es, n, m).value < |es|
    decreases |es| - SLOTS * m
  {
    if SLOTS * (m + 1) <= |es| {
      var dirent := es[SLOTS * m..SLOTS * (m + 1)];
      if RoomFrom(dirent, 0, 0, n) > n {
        RoomMeansFree(dirent, 0, 0, n);
      } else {
        PickedLater(es, n, m + 1);
      }
    }
  }

  /** The entry scan of fat.c:380-391; -1 stands for none. */
  method FindSlot(dirent: seq<Entry>, lfnCount: nat) returns (emptyEntIdx: int, emptyEntrySeqLen: nat)
    requires |dirent| == SLOTS
    ensures emptyEntrySeqLen == RoomFrom(dirent, 0, 0, lfnCount)
    ensures emptyEntrySeqLen > lfnCount ==> emptyEntIdx == FreeIndex(dirent, 0) < SLOTS
  {
    hide RoomFrom, FreeIndex;
    ScanSteps(dirent, 0, 0, lfnCount);
    emptyEntIdx, emptyEntrySeqLen := -1, 0;
    var i := 0;
    while i < SLOTS && emptyEntrySeqLen <= lfnCount
      invariant i <= SLOTS
      invariant RoomFrom(dirent, i, emptyEntrySeqLen, lfnCount) == RoomFrom(dirent, 0, 0, lfnCount)
      invariant emptyEntrySeqLen > lfnCount ==> emptyEntIdx >= 0
      invariant if emptyEntIdx ==
          -1 then FreeIndex(dirent, 0) == FreeIndex(dirent, i) else emptyEntIdx == FreeIndex(dirent, 0) < SLOTS
    {
      ScanSteps(dirent, i, emptyEntrySeqLen, lfnCount);
      if dirent[i][0] == 0 {
        emptyEntrySeqLen := emptyEntrySeqLen + (SLOTS - i);
        emptyEntIdx := if emptyEntIdx == -1 then i else emptyEntIdx;
      }
      if dirent[i][0] == DELETED {
        emptyEntrySeqLen := emptyEntrySeqLen + 1;
        emptyEntIdx := if emptyEntIdx == -1 then i else emptyEntIdx;
      }
      i := i + 1;
    }
    ScanSteps(dirent, i, emptyEntrySeqLen, lfnCount);
  }

  lemma ScanSteps(dirent: seq<Entry>, i: nat, len: nat, n: nat)
    requires |dirent| == SLOTS && i <= SLOTS
    ensures i == SLOTS || len > n ==> RoomFrom(dirent, i, len, n) == len
    ensures i < SLOTS && len <= n ==>
      && (dirent[i][0] == 0 ==> RoomFrom(dirent, i, len, n) == RoomFrom(dirent, i + 1, len + (SLOTS - i), n))
      && (dirent[i][0] == DELETED ==> RoomFrom(dirent, i, len, n) == RoomFrom(dirent, i + 1, len + 1, n))
      && (Live(dirent[i]) ==> RoomFrom(dirent, i, len, n) == RoomFrom(dirent, i + 1, len, n))
    ensures i < SLOTS ==> FreeIndex(dirent, i) == if Live(dirent[i]) then FreeIndex(dirent, i + 1) else i
  {
  }
}
