/** The list of opened audio streams and prompts (apps/audioplayers/app_audio.cpp). */
module AudioList {

  const MAX_AUDIO_BUF_LIST := 20

  /** app_audio_status_mempool, from which every listed entry and no other is taken. */
  const POOL_SIZE := 20

  datatype Id =
    | PlayBack | HfpPcm | HfpCvsd | HfpVendor | A2dpSbc | A2dpAac | A2dpVendor | AiVoice | OtherId(bits: nat)

  /** APP_AUDIO_STATUS: what is opened, whether its sound is the ring of an incoming call, and all the rest. */
  datatype Entry = Entry(id: Id, incomingCall: bool, info: nat)

  predicate IsPrompt(e: Entry) {
    e.id == PlayBack
  }

  /** The ids that count as streams; AI voice only in a build that has it. */
  predicate IsStream(aiVoice: bool, e: Entry) {
    || e.id in {HfpPcm, HfpCvsd, HfpVendor, A2dpSbc, A2dpAac, A2dpVendor}
    || (aiVoice && e.id == AiVoice)
  }

  predicate StreamExists(aiVoice: bool, l: seq<Entry>) {
    exists i | 0 <= i < |l| :: IsStream(aiVoice, l[i])
  }

  predicate PlaybackExists(l: seq<Entry>) {
    exists i | 0 <= i < |l| :: IsPrompt(l[i])
  }

  predicate RingExists(l: seq<Entry>) {
    exists i | 0 <= i < |l| :: IsPrompt(l[i]) && l[i].incomingCall
  }

  /** app_audio_list_filter_exist: a second ring is refused, and any other prompt behind three entries. */
  predicate Filtered(l: seq<Entry>, e: Entry) {
    IsPrompt(e) && if e.incomingCall then RingExists(l) else |l| >= 3
  }

  /** The new list and whether the entry is to be started at once; or the pool had no block for it. */
  datatype Opened = Opened(l: seq<Entry>, start: bool) | NoBlock

  /** A prompt meets the branch that clears the list. */
  predicate Overflows(l: seq<Entry>, e: Entry) {
    IsPrompt(e) && !Filtered(l, e) && PlaybackExists(l) && |l| >= MAX_AUDIO_BUF_LIST
  }

  /**
   * app_audio_list_append with a pool of `pool` blocks. An overflowing prompt is replaced by a copy of the front entry
   * when a stream is listed, and that copy is taken before the list is cleared.
   */
  function Append(aiVoice: bool, pool: nat, l: seq<Entry>, e: Entry): (r: Opened) {
    if Filtered(l, e) then Opened(l, false)
    else if Overflows(l, e) then
      if StreamExists(aiVoice, l) then if |l| < pool then Opened([l[0]], true) else NoBlock
      else if 0 < pool then Opened([e], true) else NoBlock
    else if |l| >= pool then NoBlock
    else if !IsPrompt(e) then Opened([e] + l, true)
    else Opened(l + [e], !PlaybackExists(l))
  }

  /** With the pool as it is, an open fails exactly on a full list, unless it is refused or first clears the list. */
  lemma NoBlockIff(aiVoice: bool, l: seq<Entry>, e: Entry)
    requires |l| <= POOL_SIZE
    ensures Append(aiVoice, POOL_SIZE, l, e).NoBlock? <==>
            |l| == POOL_SIZE && !Filtered(l, e) && !(IsPrompt(e) && PlaybackExists(l) && !StreamExists(aiVoice, l))
    ensures Append(aiVoice, POOL_SIZE, l, e).Opened? ==> |Append(aiVoice, POOL_SIZE, l, e).l| <= POOL_SIZE
  {
  }

  /** A prompt is refused for a ring that is listed already, or behind three entries of any kind; a stream never is. */
  lemma RefusedIff(l: seq<Entry>, e: Entry)
    ensures Filtered(l, e) <==>
            && e.id == PlayBack
            && (e.incomingCall ==> exists i | 0 <= i < |l| :: l[i].id == PlayBack && l[i].incomingCall)
            && (!e.incomingCall ==> |l| >= 3)
  {
    if exists i | 0 <= i < |l| :: l[i].id == PlayBack && l[i].incomingCall {
      var i :| 0 <= i < |l| && l[i].id == PlayBack && l[i].incomingCall;
      assert IsPrompt(l[i]);
    }
  }

  /**
   * A refused prompt changes nothing and is not started. What is listed is started at once exactly when it is a stream,
   * or no other prompt stands in front of it.
   */
  lemma StartedIff(aiVoice: bool, l: seq<Entry>, e: Entry)
    requires |l| <= POOL_SIZE
    ensures Filtered(l, e) ==> Append(aiVoice, POOL_SIZE, l, e) == Opened(l, false)
    ensures var r := Append(aiVoice, POOL_SIZE, l, e);
      !Filtered(l, e) && r.Opened? ==>
        && r.l != [] && r.l[if e.id == PlayBack then |r.l| - 1 else 0] == e
        && (r.start <==> e.id != PlayBack || forall i | 0 <= i < |r.l| - 1 :: r.l[i].id != PlayBack)
  {
    if PlaybackExists(l) {
      var i :| 0 <= i < |l| && IsPrompt(l[i]);
      assert (l + [e])[i] == l[i];
    }
  }

  /** With more blocks than listed entries, an overflowing prompt leaves the front entry alone if a stream is listed. */
  lemma FrontIsKeptWithSpareBlock(aiVoice: bool, pool: nat, l: seq<Entry>, e: Entry)
    requires |l| < pool && |l| >= 20 && e.id == PlayBack && !Filtered(l, e) && PlaybackExists(l)
    ensures Append(aiVoice, pool, l, e) == Opened([if StreamExists(aiVoice, l) then l[0] else e], true)
  {
  }

  /** So the front entry never takes the place of a prompt. */
  lemma FrontIsNeverKept(aiVoice: bool, l: seq<Entry>, e: Entry)
    requires |l| <= POOL_SIZE && Overflows(l, e)
    ensures Append(aiVoice, POOL_SIZE, l, e) == if StreamExists(aiVoice, l) then NoBlock else Opened([e], true)
  {
  }

  /** The first entry with an id, or the length of the list. */
  function FirstOf(l: seq<Entry>, id: Id): (k: nat)
    ensures k <= |l| && (k < |l| ==> l[k].id == id) && forall i | 0 <= i < k :: l[i].id != id
  {
    if l == [] || l[0].id == id then 0 else 1 + FirstOf(l[1..], id)
  }

  /** The last entry with an id, or -1. */
  function LastOf(l: seq<Entry>, id: Id): (k: int)
    ensures -1 <= k < |l| && (k >= 0 ==> l[k].id == id) && forall i | k < i < |l| :: l[i].id != id
  {
    if l == [] then -1 else if l[|l| - 1].id == id then |l| - 1 else LastOf(l[..|l| - 1], id)
  }

  function Without(l: seq<Entry>, k: nat): seq<Entry> {
    if k < |l| then l[..k] + l[k + 1..] else l
  }

  datatype Position = Head | Tail

  /** The entry a close request takes off the list, or -1 for none. */
  function Removed(aiVoice: bool, l: seq<Entry>, id: Id, pos: Position): (k: int)
    ensures -1 <= k < |l|
  {
    if id == PlayBack then if FirstOf(l, PlayBack) < |l| then FirstOf(l, PlayBack) else -1
    else if !StreamExists(aiVoice, l) then -1
    else if aiVoice && id == AiVoice then LastOf(l, AiVoice)
    else if pos == Head then 0 else |l| - 1
  }

  function Close(aiVoice: bool, l: seq<Entry>, id: Id, pos: Position): seq<Entry> {
    var k := Removed(aiVoice, l, id, pos);
    if k < 0 then l else Without(l, k)
  }

  /** What is to be opened after a prompt: a listed entry, or music that is active but not listed. */
  datatype NextUp = Nothing | Listed(e: Entry) | UnlistedMusic

  /** After a prompt: the next prompt, else A2DP SBC, else the front. */
  function NextAfterPrompt(l: seq<Entry>, music: bool): NextUp {
    if FirstOf(l, PlayBack) < |l| then Listed(l[FirstOf(l, PlayBack)])
    else if FirstOf(l, A2dpSbc) < |l| then Listed(l[FirstOf(l, A2dpSbc)])
    else if l != [] then Listed(l[0])
    else if music then UnlistedMusic else Nothing
  }

  /** app_audio_list_rmv_callback as a whole; an empty list answers nothing. */
  function NextAfterClose(aiVoice: bool, l: seq<Entry>, id: Id, pos: Position, music: bool): NextUp {
    if l == [] || id != PlayBack then Nothing else NextAfterPrompt(Close(aiVoice, l, id, pos), music)
  }

  class List {
    const aiVoice: bool
    const pool: nat
    var audioList: seq<Entry>
    var free: nat

    /** Every block of the pool is free or holds a listed entry. */
    ghost predicate Valid()
      reads this
    {
      free + |audioList| == pool
    }

    constructor (aiVoice: bool, pool: nat)
      ensures Valid() && this.aiVoice == aiVoice && this.pool == pool && audioList == []
    {
      this.aiVoice, this.pool, audioList, free := aiVoice, pool, [], pool;
    }

    /** osPoolCAlloc */
    method Alloc() returns (ok: bool)
      modifies this`free
      ensures ok == (old(free) > 0) && free == if ok then old(free) - 1 else old(free)
    {
      ok := free > 0;
      if ok {
        free := free - 1;
      }
    }

    /** list_remove, which gives the block back. */
    method Remove(k: nat)
      requires Valid()
      modifies this
      ensures Valid() && audioList == Without(old(audioList), k)
    {
      if k < |audioList| {
        audioList := Without(audioList, k);
        free := free + 1;
      }
    }

    method StreamExist() returns (found: bool)
      ensures found <==> StreamExists(aiVoice, audioList)
    {
      for node := 0 to |audioList|
        invariant forall i | 0 <= i < node :: !IsStream(aiVoice, audioList[i])
      {
        if IsStream(aiVoice, audioList[node]) {
          return true;
        }
      }
      return false;
    }

    method PlaybackExist() returns (found: bool)
      ensures found <==> PlaybackExists(audioList)
    {
      for node := 0 to |audioList|
        invariant forall i | 0 <= i < node :: !IsPrompt(audioList[i])
      {
        if audioList[node].id == PlayBack {
          return true;
        }
      }
      return false;
    }

    method FilterExist(e: Entry) returns (filtered: bool)
      ensures filtered <==> Filtered(audioList, e)
    {
      if e.id != PlayBack {
        return false;
      }
      var cnt := 0;
      if e.incomingCall {
        for node := 0 to |audioList|
          invariant forall i | 0 <= i < node :: !(IsPrompt(audioList[i]) && audioList[i].incomingCall)
        {
          if audioList[node].id == PlayBack && audioList[node].incomingCall {
            return true;
          }
        }
      } else {
        for node := 0 to |audioList|
          invariant cnt == node <= 2
        {
          if cnt > 1 {
            return true;
          }
          cnt := cnt + 1;
        }
      }
      return false;
    }

    /** app_audio_list_find_next_available_id */
    method FindNext(id: Id) returns (k: nat)
      ensures k == FirstOf(audioList, id)
    {
      k := 0;
      while k < |audioList| && audioList[k].id != id
        invariant k <= |audioList| && FirstOf(audioList, id) == k + FirstOf(audioList[k..], id)
      {
        k := k + 1;
      }
    }

    /** app_audio_list_append; nothing is described once a block was missing. */
    method AppendEntry(e: Entry) returns (start: bool, noBlock: bool)
      requires Valid()
      modifies this
      ensures noBlock == Append(aiVoice, pool, old(audioList), e).NoBlock?
      ensures !noBlock ==> Valid() && Opened(audioList, start) == Append(aiVoice, pool, old(audioList), e)
    {
      var data, toHead, have := e, false, false;
      start, noBlock := true, false;
      if e.id == PlayBack {
        var filtered := FilterExist(e);
        if filtered {
          start := false;
          return;
        }
        var playing := PlaybackExist();
        if playing {
          if |audioList| >= MAX_AUDIO_BUF_LIST {
            var streaming := StreamExist();
            if streaming {
              have := Alloc();
              if !have {
                noBlock := true;
                return;
              }
              data, toHead := audioList[0], true;
            }
            Clear();
          } else {
            start := false;
          }
        }
      } else {
        toHead := true;
      }
      if !have {
        have := Alloc();
        if !have {
          noBlock := true;
          return;
        }
      }
      audioList := if toHead then [data] + audioList else audioList + [data];
    }

    method LastAiVoice() returns (k: int)
      ensures k == LastOf(audioList, AiVoice)
    {
      k := -1;
      for node := 0 to |audioList|
        invariant k == LastOf(audioList[..node], AiVoice)
      {
        assert audioList[..node + 1][..node] == audioList[..node];
        if audioList[node].id == AiVoice {
          k := node;
        }
      }
      assert audioList[..|audioList|] == audioList;
    }

    /** The first prompt goes, and what is to be opened next is looked for. */
    method RmvPrompt(music: bool) returns (next: NextUp)
      requires Valid()
      modifies this
      ensures Valid()
      ensures audioList == Without(old(audioList), FirstOf(old(audioList), PlayBack))
      ensures next == NextAfterPrompt(audioList, music)
    {
      var k := FindNext(PlayBack);
      Remove(k);
      next := Nothing;
      k := FindNext(PlayBack);
      if k == |audioList| {
        k := FindNext(A2dpSbc);
      }
      if k < |audioList| {
        next := Listed(audioList[k]);
      } else if |audioList| > 0 {
        next := Listed(audioList[0]);
      } else if music {
        next := UnlistedMusic;
      }
    }

    method RmvStream(id: Id, pos: Position)
      requires Valid() && id != PlayBack && audioList != []
      modifies this
      ensures Valid() && audioList == Close(aiVoice, old(audioList), id, pos)
    {
      var streaming := StreamExist();
      if streaming {
        var k := if pos == Head then 0 else |audioList| - 1;
        if aiVoice && id == AiVoice {
          k := LastAiVoice();
        }
        if k >= 0 {
          Remove(k);
        }
      }
    }

    /** app_audio_list_rmv_callback */
    method RmvCallback(id: Id, pos: Position, music: bool) returns (next: NextUp)
      requires Valid()
      modifies this
      ensures Valid() && audioList == Close(aiVoice, old(audioList), id, pos)
      ensures next == NextAfterClose(aiVoice, old(audioList), id, pos, music)
    {
      if |audioList| == 0 {
        return Nothing;
      }
      next := Nothing;
      if id == PlayBack {
        next := RmvPrompt(music);
      } else {
        RmvStream(id, pos);
      }
    }

    /** app_audio_list_rmv_by_info */
    method RmvByInfo(id: Id)
      requires Valid()
      modifies this
      ensures Valid() && audioList == Without(old(audioList), FirstOf(old(audioList), id))
    {
      var k := FindNext(id);
      Remove(k);
    }

    /** list_clear gives all blocks back; one that is taken but not listed stays taken. */
    method Clear()
      modifies this
      ensures audioList == [] && free == old(free) + |old(audioList)|
    {
      audioList, free := [], free + |audioList|;
    }
  }
}
