/**
 The memory nodes as objects that are changed in place: headers/memList.c and the copies of
 functions/processShared.c. The contracts tie each operation to the transition system's view of a node.
 */
module MemoryNode {
  import opened CText
  import opened SharedProtocol

  class MemNode {
    const mem: array<char>
    var spaceUsed: nat
    var proxyState: Flag
    var serverState: Flag

    /** One node of `getMemList`; the segment's bytes are whatever the system gives. */
    constructor (cap: Capacity)
      ensures fresh(mem) && mem.Length == cap
      ensures spaceUsed == 0 && proxyState == Idle && serverState == Idle
    {
      mem := new char[cap];
      spaceUsed, proxyState, serverState := 0, Idle, Idle;
    }

    /** The node is what the transition system calls `s`. */
    ghost predicate Shows(s: State)
      reads this, mem
    {
      && mem[..] == s.x.mem && spaceUsed == s.x.spaceUsed
      && proxyState == s.proxyState && serverState == s.serverState
    }

    /** `setMapping`; that the data fits is left to the caller. */
    method Map(data: string, ghost s: State) returns (written: nat)
      requires Shows(s) && |data| <= mem.Length
      modifies this`spaceUsed, mem
      ensures Shows(s.(x := SetMapping(s.x, data))) && written == |data|
    {
      forall i | 0 <= i < |data| {
        mem[i] := '\0';
      }
      forall i | 0 <= i < |data| {
        mem[i] := data[i];
      }
      spaceUsed := |data|;
      assert mem[|data|..] == s.x.mem[|data|..];
      return |data|;
    }

    /** `receiveShared`. */
    method Receive(ghost s: State) returns (r: Option<string>)
      requires Shows(s) && spaceUsed <= mem.Length
      ensures r == if s.x.spaceUsed == 0 then None else Some(Segment(s.x))
    {
      if spaceUsed == 0 {
        return None;
      }
      return Some(mem[..spaceUsed]);
    }
  }

  /** The message buffer of `sendShared`: header, then body. */
  method Join(header: string, body: string) returns (total: array<char>)
    ensures fresh(total) && total[..] == header + body
  {
    total := new char[|header| + |body|];
    forall i | 0 <= i < |header| {
      total[i] := header[i];
    }
    forall i | 0 <= i < |body| {
      total[|header| + i] := body[i];
    }
  }

  /** `findState`: the first node whose proxy flag is `s`. */
  method FindState(list: seq<MemNode>, s: Flag) returns (r: Option<nat>)
    ensures match r
      case Some(k) => k < |list| && list[k].proxyState == s && forall i :: 0 <= i < k ==> list[i].proxyState != s
      case None => forall i :: 0 <= i < |list| ==> list[i].proxyState != s
  {
    for i := 0 to |list|
      invariant forall j :: 0 <= j < i ==> list[j].proxyState != s
    {
      if list[i].proxyState == s {
        return Some(i);
      }
    }
    return None;
  }
}
