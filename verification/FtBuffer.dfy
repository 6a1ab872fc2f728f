/** The command buffer of the driver.  Commands and the observers of their replies are queued in
    memory taken from an arena; a flush writes the commands, reads the replies and runs the
    observers, which find what they need through addresses. */
module FtBuffer {
  import opened Octets
  import opened Mpsse
  import opened Pending
  import opened Mempool

  // ---------------------------------------------------------------- the chip

  /** The chip behind FT_Write and FT_Read.  Transfers may fail or fall short, and leave the chip
      in any state then, unless the link is reliable. */
  class FtChip {
    const env: Env
    var chip: Chip
    var unread: seq<byte>
    var reliable: bool
    var unplugged: bool

    constructor (env: Env, reliable: bool, chip: Chip)
      ensures this.env == env && this.reliable == reliable && this.chip == chip && unread == [] && !unplugged
    {
      this.env, this.reliable, this.chip, unread, unplugged := env, reliable, chip, [], false;
    }

    /** The cable is pulled out: from now on all transfers fail. */
    method Unplug()
      modifies this`reliable, this`unplugged
      ensures unplugged && !reliable
    {
      reliable, unplugged := false, true;
    }

    method Write(data: seq<byte>) returns (success: bool, written: nat)
      modifies this`chip, this`unread
      ensures success && written == |data| ==>
        chip == Run(env, old(chip), data).chip && unread == old(unread) + Run(env, old(chip), data).out
      ensures reliable ==> success && written == |data|
      ensures unplugged && !reliable ==> !success
    {
      var fault: bool := *;
      if (fault || unplugged) && !reliable {
        success, written := *, 0;
        if written == |data| || unplugged {
          success := false;
        }
        chip, unread := *, *;
      } else {
        var r := Run(env, chip, data);
        chip, unread := r.chip, unread + r.out;
        success, written := true, |data|;
      }
    }

    method Read(n: nat) returns (success: bool, data: seq<byte>)
      modifies this`chip, this`unread
      ensures unplugged && !reliable ==> !success
      ensures success ==> |data| <= n && |data| <= |old(unread)|
      ensures success ==> data == old(unread)[..|data|] && unread == old(unread)[|data|..] && chip == old(chip)
      ensures reliable ==> success && |data| == if n <= |old(unread)| then n else |old(unread)|
    {
      var fault: bool := *;
      if (fault || unplugged) && !reliable {
        success, data := false, [];
        chip, unread := *, *;
      } else {
        var k: nat := if n <= |unread| then n else |unread|;
        if !reliable {
          var short: int := *;
          k := if 0 <= short < k then short else k;
        }
        success, data := true, unread[..k];
        unread := unread[k..];
      }
    }
  }

  // ---------------------------------------------------------------- queued observers

  datatype ObserverFn = NoObserver | BitCopier | OctetCopier

  /** What a bit copier is told; lives in the driver's own arena. */
  datatype BitExtra = BitExtra(fromBit: nat, dst: array<byte>, toBit: nat, numBits: nat)

  /** What the buffer's arena holds: list nodes, and what octet copiers are told. */
  datatype Record =
    | Node(next: nat, fn: ObserverFn, data: nat, extra: nat)
    | OctetExtra(dst: array<byte>, to: nat, numBytes: nat)

  const NODE_SIZE := 32
  const OCTET_EXTRA_SIZE := 16
  const OBJECT_ALIGN := 8

  /** At `extra` there is what the observer function needs to carry out `a` on `size` octets. */
  ghost predicate ExtraStored(records: map<nat, Record>, bits: map<nat, BitExtra>, fn: ObserverFn, extra: nat,
                              a: Action, size: nat, tdo: array<byte>)
  {
    match a
    case Ignore => fn == NoObserver
    case TakeBits(from, to, n) => fn == BitCopier && extra in bits && bits[extra] == BitExtra(from, tdo, to, n)
    case TakeOctets(to) => fn == OctetCopier && extra in records && records[extra] == OctetExtra(tdo, to, size)
  }

  ghost predicate NodeStored(records: map<nat, Record>, bits: map<nat, BitExtra>, rxBuffer: nat, p: nat, next: nat,
                             o: Observer, tdo: array<byte>)
  {
    && p != 0 && p in records && records[p].Node?
    && records[p].next == next && records[p].data == rxBuffer + o.offset
    && o.action != Ignore && ExtraStored(records, bits, records[p].fn, records[p].extra, o.action, o.size, tdo)
  }

  function After(queue: seq<nat>, i: nat): nat
  {
    if i < |queue| then queue[i] else 0
  }

  /** The nodes at the addresses `queue` form a list of the observers `os`. */
  ghost predicate ListStored(records: map<nat, Record>, bits: map<nat, BitExtra>, rxBuffer: nat, queue: seq<nat>,
                             os: seq<Observer>, tdo: array<byte>)
  {
    && |queue| == |os|
    && (forall i :: 0 <= i < |queue| ==>
          NodeStored(records, bits, rxBuffer, queue[i], After(queue, i + 1), os[i], tdo))
    && (forall i, j :: 0 <= i < j < |queue| ==> queue[i] != queue[j])
  }

  lemma ListOutlivesRecord(records: map<nat, Record>, bits: map<nat, BitExtra>, rxBuffer: nat, queue: seq<nat>,
                           os: seq<Observer>, tdo: array<byte>, p: nat, r: Record)
    requires ListStored(records, bits, rxBuffer, queue, os, tdo) && p !in records
    ensures ListStored(records[p := r], bits, rxBuffer, queue, os, tdo)
  {
    hide After;
    forall i | 0 <= i < |queue|
      ensures NodeStored(records[p := r], bits, rxBuffer, queue[i], After(queue, i + 1), os[i], tdo)
    {
      assert NodeStored(records, bits, rxBuffer, queue[i], After(queue, i + 1), os[i], tdo);
    }
  }

  lemma ListOutlivesBits(records: map<nat, Record>, bits: map<nat, BitExtra>, rxBuffer: nat, queue: seq<nat>,
                         os: seq<Observer>, tdo: array<byte>, p: nat, e: BitExtra)
    requires ListStored(records, bits, rxBuffer, queue, os, tdo) && p !in bits
    ensures ListStored(records, bits[p := e], rxBuffer, queue, os, tdo)
  {
    hide After;
    forall i | 0 <= i < |queue|
      ensures NodeStored(records, bits[p := e], rxBuffer, queue[i], After(queue, i + 1), os[i], tdo)
    {
      assert NodeStored(records, bits, rxBuffer, queue[i], After(queue, i + 1), os[i], tdo);
    }
  }

  /** Reclaiming the driver's arena leaves the list intact if and only if no bit copier is queued. */
  lemma ExtrasGone(records: map<nat, Record>, bits: map<nat, BitExtra>, rxBuffer: nat, queue: seq<nat>,
                   os: seq<Observer>, tdo: array<byte>)
    requires ListStored(records, bits, rxBuffer, queue, os, tdo)
    ensures ListStored(records, map[], rxBuffer, queue, os, tdo)
            <==> forall i :: 0 <= i < |os| ==> !os[i].action.TakeBits?
  {
    hide After;
    forall i | 0 <= i < |queue|
      ensures NodeStored(records, map[], rxBuffer, queue[i], After(queue, i + 1), os[i], tdo)
              <==> !os[i].action.TakeBits?
    {
      assert NodeStored(records, bits, rxBuffer, queue[i], After(queue, i + 1), os[i], tdo);
    }
  }

  lemma NodeAt(records: map<nat, Record>, bits: map<nat, BitExtra>, rxBuffer: nat, queue: seq<nat>,
               os: seq<Observer>, tdo: array<byte>, k: nat)
    requires ListStored(records, bits, rxBuffer, queue, os, tdo) && k < |queue|
    ensures |os| == |queue| && NodeStored(records, bits, rxBuffer, queue[k], After(queue, k + 1), os[k], tdo)
  {
    hide ExtraStored;
  }

  /** Linking a new node behind the last one. */
  lemma ListGrows(records: map<nat, Record>, bits: map<nat, BitExtra>, rxBuffer: nat, queue: seq<nat>,
                  os: seq<Observer>, tdo: array<byte>, p: nat, node: Record, o: Observer, linked: map<nat, Record>)
    requires ListStored(records, bits, rxBuffer, queue, os, tdo)
    requires p != 0 && p !in records && node.Node? && node.next == 0 && node.data == rxBuffer + o.offset
    requires o.action != Ignore && ExtraStored(records, bits, node.fn, node.extra, o.action, o.size, tdo)
    requires linked == if queue == [] then records[p := node]
                       else records[p := node][queue[|queue| - 1] := records[queue[|queue| - 1]].(next := p)]
    ensures ListStored(linked, bits, rxBuffer, queue + [p], os + [o], tdo)
  {
    var queue', os' := queue + [p], os + [o];
    forall i | 0 <= i < |queue'|
      ensures NodeStored(linked, bits, rxBuffer, queue'[i], After(queue', i + 1), os'[i], tdo)
    {
      if i < |queue| {
        assert NodeStored(records, bits, rxBuffer, queue[i], After(queue, i + 1), os[i], tdo);
      }
    }
  }

  // ---------------------------------------------------------------- the buffer

  function Max(a: int, b: int): int
  {
    if a < b then b else a
  }

  lemma KeepsAlignment(head: nat, n: nat)
    requires head % 8 == 0 && n % 8 == 0
    ensures (head + n) % 8 == 0 && AlignUp(head, OBJECT_ALIGN) == head && IsPowerOf2(OBJECT_ALIGN)
  {
  }

  lemma ListOfNone(records: map<nat, Record>, bits: map<nat, BitExtra>, rxBuffer: nat, tdo: array<byte>)
    ensures ListStored(records, bits, rxBuffer, [], [], tdo)
  {
  }

  /** Bits taken from the rest of the replies are bits of the observer's own slice. */
  lemma {:induction false} SliceBits(rx: seq<byte>, at: nat, size: nat, from: nat, n: nat, tdo: seq<byte>, to: nat)
    requires at + size <= |rx| && from + n <= 8 * size && to + n <= 8 * |tdo|
    ensures CopiedBits(rx[at..], from, tdo, to, n) == CopiedBits(rx[at..at + size], from, tdo, to, n)
    decreases n
  {
    hide SetVecBit;
    if n > 0 {
      SliceBits(rx, at, size, from, n - 1, tdo, to);
      assert VecBit(rx[at..], from + n - 1) == VecBit(rx[at..at + size], from + n - 1);
    }
  }

  class FtBuffer {
    const ftChip: FtChip
    const pool: Mempool<Record>
    const extras: Mempool<BitExtra>  // the driver's arena, where bit copiers find their extras
    const maxTxBufferBytes: nat
    const maxRxBufferBytes: nat
    var txBuffer: nat
    var txData: seq<byte>            // the first txNumBytes octets at txBuffer
    var rxBuffer: nat
    var rxNumBytes: nat
    var rxObserverFirst: nat
    var rxObserverLast: nat
    ghost var queue: seq<nat>        // addresses of the list nodes
    ghost var observers: seq<Observer>

    ghost function Pending(): Queue
      reads this, ftChip
    {
      Queue(ftChip.chip, txData, rxNumBytes, observers)
    }

    /** Pool bytes taken by nodes and extras. */
    ghost function Overhead(): int
      reads this, pool
    {
      pool.head - pool.start
      - (if txBuffer != 0 then maxTxBufferBytes else 0) - (if rxBuffer != 0 then maxRxBufferBytes else 0)
    }

    /** Pool bytes taken in excess of nine for every byte to be written. */
    ghost function Slack(): int
      reads this, pool
    {
      Overhead() - 9 * |txData|
    }

    ghost predicate Sound(tdo: array<byte>)
      reads this, pool, extras
    {
      && pool.Valid() && extras.Valid()
      && (maxRxBufferBytes == 1024 || maxRxBufferBytes == 4096) && maxTxBufferBytes == 3 * maxRxBufferBytes
      && pool.start % 8 == 0 && pool.head % 8 == 0 && pool.end == pool.start + 128 * 1024
      && |txData| <= maxTxBufferBytes && rxNumBytes <= maxRxBufferBytes
      && (txBuffer != 0 <==> |txData| > 0) && (rxBuffer != 0 <==> rxNumBytes > 0)
      && (rxBuffer == 0 ==> queue == []) && |queue| == |observers|
      && rxObserverFirst == After(queue, 0)
      && rxObserverLast == (if queue == [] then 0 else queue[|queue| - 1])
      && ListStored(pool.objects, extras.objects, rxBuffer, queue, observers, tdo)
      && Overhead() >= 0
    }

    /** The buffer is sound, all replies asked for so far are read, those expected are exactly those
        the chip will produce, and the arena has room for whatever comes next. */
    ghost predicate Valid(tdo: array<byte>)
      reads this, pool, extras, ftChip
    {
      && Sound(tdo)
      && ftChip.unread == []
      && Accounted(ftChip.env, Pending(), tdo.Length)
      && Slack() <= 64
    }

    /** Chip and TDO vector once everything pending has been carried out. */
    ghost function Promise(tdo: array<byte>): World
      reads this, pool, extras, ftChip, tdo
      requires Valid(tdo)
    {
      Outcome(ftChip.env, Pending(), tdo[..])
    }

    /** The arena never runs out: what is taken and what the next command may take at most, buffers
        included, stays within 128 KiB. */
    lemma PoolSuffices(tdo: array<byte>)
      requires Valid(tdo)
      ensures pool.head - pool.start <= 4 * maxRxBufferBytes + 9 * |txData| + 64
      ensures pool.head
              + (if txBuffer == 0 then maxTxBufferBytes else 0) + (if rxBuffer == 0 then maxRxBufferBytes else 0)
              + OCTET_EXTRA_SIZE + NODE_SIZE <= pool.end
    {
    }

    /** A buffer without observers has no business with any TDO vector. */
    lemma ValidForAny(tdo: array<byte>, other: array<byte>)
      requires Valid(tdo) && observers == []
      ensures Valid(other) && Promise(other) == World(Promise(tdo).chip, other[..])
    {
      hide Run, ListStored, Laid, ObserveAll;
      ListOfNone(pool.objects, extras.objects, rxBuffer, other);
      NothingObserved([], Run(ftChip.env, ftChip.chip, txData).out, other[..]);
    }

    /** ft_buffer_init() */
    constructor (ftChip: FtChip, pool: Mempool<Record>, extras: Mempool<BitExtra>, chipBufferBytes: nat,
                 ghost tdo: array<byte>)
      requires pool.Valid() && extras.Valid()
      requires pool.start % 8 == 0 && pool.head == pool.start && pool.end == pool.start + 128 * 1024
      requires chipBufferBytes == 1024 || chipBufferBytes == 4096
      requires ftChip.unread == []
      ensures Valid(tdo) && txBuffer == rxBuffer == 0
      ensures this.ftChip == ftChip && this.pool == pool && this.extras == extras
      ensures maxTxBufferBytes == 3 * chipBufferBytes && maxRxBufferBytes == chipBufferBytes
      ensures Promise(tdo) == World(ftChip.chip, tdo[..]) && Pending() == Queue(ftChip.chip, [], 0, [])
    {
      this.ftChip, this.pool, this.extras := ftChip, pool, extras;
      maxTxBufferBytes, maxRxBufferBytes := 3 * chipBufferBytes, chipBufferBytes;
      txBuffer, rxBuffer, rxNumBytes, rxObserverFirst, rxObserverLast := 0, 0, 0, 0, 0;
      txData, queue, observers := [], [], [];
      new;
      hide Run, ListStored, Laid;
      NothingPending(ftChip.env, ftChip.chip, tdo[..]);
      ListOfNone(pool.objects, extras.objects, 0, tdo);
    }

    /** One observer is run on the reply it waits for. */
    method RunObserver(node: Record, rxData: seq<byte>, ghost o: Observer, tdo: array<byte>)
      requires node.Node? && rxBuffer <= node.data && node.data == rxBuffer + o.offset
      requires o.action != Ignore
      requires ExtraStored(pool.objects, extras.objects, node.fn, node.extra, o.action, o.size, tdo)
      requires o.offset + o.size <= |rxData| && ActionFits(o.action, o.size, tdo.Length)
      modifies tdo
      ensures tdo[..] == Act(o.action, rxData[o.offset..o.offset + o.size], old(tdo[..]))
    {
      var at := node.data - rxBuffer;
      match node.fn
      case BitCopier =>
        var e := extras.objects[node.extra];
        SliceBits(rxData, at, o.size, e.fromBit, e.numBits, tdo[..], e.toBit);
        CopyBits(rxData[at..], e.fromBit, e.dst, e.toBit, e.numBits, false);
      case OctetCopier =>
        var e := pool.objects[node.extra];
        CopyOctets(rxData[at..at + e.numBytes], e.dst, e.to);
    }

    /** ft_buffer_flush() */
    method Flush(tdo: array<byte>) returns (ok: bool)
      requires Valid(tdo)
      modifies this, ftChip`chip, ftChip`unread, pool, tdo
      ensures ftChip.reliable ==> ok
      ensures ok ==> Valid(tdo) && Pending() == Flushed(ftChip.env, old(Pending())) && Slack() == 0
      ensures ok ==> Promise(tdo) == old(Promise(tdo))
      ensures !ok ==> queue == old(queue) && observers == old(observers) && rxBuffer == old(rxBuffer)
      ensures !ok ==> pool.objects == old(pool.objects)
      ensures old(ftChip.unplugged) && !ftChip.reliable && old(observers) != [] ==> !ok
    {
      hide Run, ObserveAll, ListStored, ObserversFit, Laid, Accounted, Outcome;
      ghost var q, tdo0 := Pending(), tdo[..];
      FlushInvisible(ftChip.env, q, tdo0);
      NothingPending(ftChip.env, q.chip, tdo0);
      ok := WriteCommands();
      if !ok {
        return;
      }
      ok := ReadReplies(tdo);
      if !ok {
        return;
      }
      pool.ReclaimAll();
      ListOfNone(pool.objects, extras.objects, 0, tdo);
    }

    method WriteCommands() returns (ok: bool)
      requires ftChip.unread == [] && (txBuffer != 0 <==> |txData| > 0)
      modifies this`txBuffer, this`txData, ftChip`chip, ftChip`unread
      ensures ftChip.reliable ==> ok
      ensures ok ==> txBuffer == 0 && txData == []
      ensures ok ==>
        var r := Run(ftChip.env, old(ftChip.chip), old(txData));
        ftChip.chip == r.chip && ftChip.unread == r.out
    {
      hide Run;
      if txBuffer != 0 {
        var success, written := ftChip.Write(txData);
        if !success || written != |txData| {
          return false;
        }
        txBuffer, txData := 0, [];
      } else {
        NothingPending(ftChip.env, ftChip.chip, []);
        assert txData == [];
      }
      return true;
    }

    method ReadReplies(tdo: array<byte>) returns (ok: bool)
      requires |ftChip.unread| == rxNumBytes && (rxBuffer != 0 <==> rxNumBytes > 0)
      requires ListStored(pool.objects, extras.objects, rxBuffer, queue, observers, tdo)
      requires rxObserverFirst == After(queue, 0) && (rxBuffer == 0 ==> queue == []) && |queue| == |observers|
      requires rxObserverLast == (if queue == [] then 0 else queue[|queue| - 1])
      requires ObserversFit(observers, rxNumBytes, tdo.Length)
      modifies this`rxBuffer, this`rxNumBytes, this`rxObserverFirst, this`rxObserverLast, this`queue, this`observers,
               ftChip`chip, ftChip`unread, tdo
      ensures ftChip.reliable ==> ok
      ensures ok ==> rxBuffer == rxNumBytes == rxObserverFirst == rxObserverLast == 0 && queue == [] && observers == []
      ensures ok ==> ftChip.unread == [] && ftChip.chip == old(ftChip.chip)
      ensures ok ==> tdo[..] == ObserveAll(old(observers), old(ftChip.unread), old(tdo[..]))
      ensures !ok ==> queue == old(queue) && observers == old(observers) && rxBuffer == old(rxBuffer)
      ensures old(ftChip.unplugged) && !ftChip.reliable && old(observers) != [] ==> !ok
    {
      hide ListStored, ObserversFit, ObserveAll;
      if rxBuffer != 0 {
        var success, data := ftChip.Read(rxNumBytes);
        if !success || |data| != rxNumBytes {
          return false;
        }
        assert data == old(ftChip.unread);
        RunObservers(data, tdo);
        rxObserverFirst, rxObserverLast := 0, 0;
        rxBuffer, rxNumBytes := 0, 0;
        queue, observers := [], [];
      } else {
        NothingObserved(observers, ftChip.unread, tdo[..]);
      }
      return true;
    }

    /** The loop over the list of observers. */
    method RunObservers(rxData: seq<byte>, tdo: array<byte>)
      requires ListStored(pool.objects, extras.objects, rxBuffer, queue, observers, tdo)
      requires |queue| == |observers| && rxObserverFirst == After(queue, 0)
      requires ObserversFit(observers, |rxData|, tdo.Length)
      modifies tdo
      ensures tdo[..] == ObserveAll(observers, rxData, old(tdo[..]))
    {
      hide Act, ActionFits, ExtraStored, ObserveAll, ListStored;
      var o := rxObserverFirst;
      ghost var k := 0;
      assert observers[..0] == [];
      NothingObserved([], rxData, tdo[..]);
      while o != 0
        invariant 0 <= k <= |queue| && o == After(queue, k)
        invariant tdo[..] == ObserveAll(observers[..k], rxData, old(tdo[..]))
        decreases |queue| - k
      {
        ObserveOneMore(observers, k, rxData, old(tdo[..]));
        NodeAt(pool.objects, extras.objects, rxBuffer, queue, observers, tdo, k);
        RunObserver(pool.objects[o], rxData, observers[k], tdo);
        o := pool.objects[o].next;
        k := k + 1;
      }
      if k < |queue| {
        NodeAt(pool.objects, extras.objects, rxBuffer, queue, observers, tdo, k);
      }
      assert observers[..k] == observers;
    }

    /** What is queued once there is room: the queue is flushed if it has none, and only then. */
    ghost function WithRoom(tx: nat, rx: nat): Queue
      reads this, ftChip
    {
      if HasRoom(tx, rx) then Pending() else Flushed(ftChip.env, Pending())
    }

    /** ft_buffer_ensure_can_append() */
    method EnsureCanAppend(txNumBytes: nat, rxNumBytes: nat, tdo: array<byte>) returns (ok: bool)
      requires Valid(tdo)
      requires txNumBytes <= maxRxBufferBytes && rxNumBytes <= maxRxBufferBytes
      modifies this, ftChip`chip, ftChip`unread, pool, tdo
      ensures ftChip.reliable ==> ok
      ensures ok ==> Valid(tdo) && Promise(tdo) == old(Promise(tdo)) && Slack() <= Max(0, old(Slack()))
      ensures ok ==> HasRoom(txNumBytes, rxNumBytes) && (observers == old(observers) || observers == [])
      ensures ok ==> Pending() == old(WithRoom(txNumBytes, rxNumBytes))
      ensures old(HasRoom(txNumBytes, rxNumBytes)) ==> ok && tdo[..] == old(tdo[..])
    {
      hide Accounted, Outcome, ListStored, Laid;
      var shouldFlush := |txData| + txNumBytes > maxTxBufferBytes || this.rxNumBytes + rxNumBytes > maxRxBufferBytes;
      if shouldFlush {
        ok := Flush(tdo);
        return;
      }
      return true;
    }

    ghost predicate HasRoom(tx: nat, rx: nat)
      reads this
    {
      |txData| + tx <= maxTxBufferBytes && rxNumBytes + rx <= maxRxBufferBytes
    }

    method StoreCommand(data: seq<byte>, ghost tdo: array<byte>)
      requires Sound(tdo) && Slack() <= 64 && HasRoom(|data|, 0)
      modifies this`txBuffer, this`txData, pool
      ensures Sound(tdo) && pool.objects == old(pool.objects)
      ensures txData == old(txData) + data && Overhead() == old(Overhead())
    {
      hide ListStored, Laid;
      if |data| > 0 {
        if txBuffer == 0 {
          KeepsAlignment(pool.head, maxTxBufferBytes);
          txBuffer := pool.AllocUnaligned(maxTxBufferBytes);
        }
        txData := txData + data;
      } else {
        assert txData + data == txData;
      }
    }

    method StoreObserver(observer: ObserverFn, extra: nat, size: nat, ghost a: Action, ghost tdo: array<byte>)
      requires Sound(tdo) && Overhead() <= 27 * maxRxBufferBytes + 64 && HasRoom(0, size)
      requires observer == NoObserver <==> a == Ignore
      requires ExtraStored(pool.objects, extras.objects, observer, extra, a, size, tdo)
      modifies this`rxBuffer, this`rxNumBytes, this`rxObserverFirst, this`rxObserverLast, this`queue
      modifies this`observers, pool
      ensures Sound(tdo)
      ensures rxNumBytes == old(rxNumBytes) + size
      ensures observers == if size == 0 || a == Ignore then old(observers)
                           else old(observers) + [Observer(old(rxNumBytes), size, a)]
      ensures Overhead() == old(Overhead()) + if size == 0 || a == Ignore then 0 else NODE_SIZE
    {
      hide ListStored, Laid, ExtraStored;
      if size > 0 {
        if rxBuffer == 0 {
          KeepsAlignment(pool.head, maxRxBufferBytes);
          rxBuffer := pool.AllocUnaligned(maxRxBufferBytes);
          ListOfNone(pool.objects, extras.objects, rxBuffer, tdo);
        }
        if observer != NoObserver {
          LinkNode(observer, extra, size, a, tdo);
        }
        rxNumBytes := rxNumBytes + size;
      }
    }

    method LinkNode(observer: ObserverFn, extra: nat, size: nat, ghost a: Action, ghost tdo: array<byte>)
      requires pool.Valid() && pool.head % 8 == 0 && pool.head + NODE_SIZE <= pool.end && pool.start % 8 == 0
      requires rxObserverFirst == After(queue, 0) && |queue| == |observers|
      requires rxObserverLast == (if queue == [] then 0 else queue[|queue| - 1])
      requires ListStored(pool.objects, extras.objects, rxBuffer, queue, observers, tdo)
      requires a != Ignore && ExtraStored(pool.objects, extras.objects, observer, extra, a, size, tdo)
      modifies this`rxObserverFirst, this`rxObserverLast, this`queue, this`observers, pool
      ensures pool.Valid() && pool.head == old(pool.head) + NODE_SIZE && pool.head % 8 == 0
      ensures rxObserverFirst == After(queue, 0) && |queue| == |observers|
      ensures rxObserverLast == (if queue == [] then 0 else queue[|queue| - 1])
      ensures ListStored(pool.objects, extras.objects, rxBuffer, queue, observers, tdo)
      ensures observers == old(observers) + [Observer(rxNumBytes, size, a)] && queue != []
    {
      hide Laid, ExtraStored, ListStored;
      if queue != [] {
        NodeAt(pool.objects, extras.objects, rxBuffer, queue, observers, tdo, 0);
        NodeAt(pool.objects, extras.objects, rxBuffer, queue, observers, tdo, |queue| - 1);
      }
      var data := rxBuffer + rxNumBytes;
      var node := NewRecord(NODE_SIZE, Node(0, observer, data, extra));
      ghost var before := old(pool.objects);
      if rxObserverFirst == 0 {
        rxObserverFirst, rxObserverLast := node, node;
      } else {
        pool.Overwrite(rxObserverLast, pool.objects[rxObserverLast].(next := node));
        rxObserverLast := node;
      }
      ListGrows(before, extras.objects, rxBuffer, queue, observers, tdo, node, Node(0, observer, data, extra),
                Observer(rxNumBytes, size, a), pool.objects);
      queue, observers := queue + [node], observers + [Observer(rxNumBytes, size, a)];
    }

    /** ft_buffer_append() */
    method Append(data: seq<byte>, observer: ObserverFn, extra: nat, size: nat, ghost a: Action, ghost tdo: array<byte>)
      requires Valid(tdo) && HasRoom(|data|, size) && Slack() + NODE_SIZE <= 64 + 9 * |data|
      requires size == 0 ==> a == Ignore
      requires observer == NoObserver <==> a == Ignore
      requires ExtraStored(pool.objects, extras.objects, observer, extra, a, size, tdo)
      requires |Run(ftChip.env, Promise(tdo).chip, data).out| == size && ActionFits(a, size, tdo.Length)
      modifies this, pool
      ensures Valid(tdo) && Promise(tdo) == Perform(ftChip.env, old(Promise(tdo)), data, a)
      ensures Slack() == old(Slack()) + (if a == Ignore then 0 else NODE_SIZE) - 9 * |data|
      ensures Pending() == Appended(old(Pending()), data, a, size)
      ensures a == Ignore ==> observers == old(observers)
      ensures a != Ignore ==> observers != [] && observers[|observers| - 1].action == a
    {
      hide Accounted, Outcome, ListStored, Laid, ExtraStored, Run, ActionFits, Perform;
      AppendPerforms(ftChip.env, Pending(), tdo[..], data, a, size);
      StoreCommand(data, tdo);
      StoreObserver(observer, extra, size, a, tdo);
    }

    /** ft_buffer_add_write_to_chip_with_readback() */
    method AddWithReadback(data: seq<byte>, observer: ObserverFn, extra: nat, size: nat, ghost a: Action,
                           tdo: array<byte>)
      returns (ok: bool)
      requires Valid(tdo) && |data| <= maxRxBufferBytes && size <= maxRxBufferBytes
      requires Max(0, Slack()) + NODE_SIZE <= 64 + 9 * |data|
      requires size == 0 ==> a == Ignore
      requires observer == NoObserver <==> a == Ignore
      requires !a.TakeOctets? && ExtraStored(map[], extras.objects, observer, extra, a, size, tdo)
      requires |Run(ftChip.env, Promise(tdo).chip, data).out| == size && ActionFits(a, size, tdo.Length)
      modifies this, ftChip`chip, ftChip`unread, pool, tdo
      ensures ftChip.reliable ==> ok
      ensures ok ==> Valid(tdo) && Promise(tdo) == Perform(ftChip.env, old(Promise(tdo)), data, a)
      ensures ok ==> Slack() <= Max(0, old(Slack())) + (if a == Ignore then 0 else NODE_SIZE) - 9 * |data|
      ensures ok ==> Pending() == Appended(old(WithRoom(|data|, size)), data, a, size)
      ensures ok && a == Ignore ==> observers == old(observers) || observers == []
      ensures ok && a != Ignore ==> observers != [] && observers[|observers| - 1].action == a
    {
      hide Accounted, Outcome, ListStored, Laid, Run, ActionFits, Perform;
      ok := EnsureCanAppend(|data|, size, tdo);
      if ok {
        Append(data, observer, extra, size, a, tdo);
      }
    }

    /** ft_buffer_add_write_to_chip() */
    method Add(data: seq<byte>, tdo: array<byte>) returns (ok: bool)
      requires Valid(tdo) && |data| <= maxRxBufferBytes
      requires Max(0, Slack()) + NODE_SIZE <= 64 + 9 * |data|
      requires |Run(ftChip.env, Promise(tdo).chip, data).out| == 0
      modifies this, ftChip`chip, ftChip`unread, pool, tdo
      ensures ftChip.reliable ==> ok
      ensures ok ==> Valid(tdo) && Promise(tdo) == Perform(ftChip.env, old(Promise(tdo)), data, Ignore)
      ensures ok ==> Slack() <= Max(0, old(Slack())) - 9 * |data|
      ensures ok ==> Pending() == Appended(old(WithRoom(|data|, 0)), data, Ignore, 0)
      ensures ok ==> observers == old(observers) || observers == []
    {
      hide Accounted, Outcome, ListStored, Laid, Run, Perform;
      ok := AddWithReadback(data, NoObserver, 0, 0, Ignore, tdo);
    }

    /** ft_buffer_add_write_to_chip_with_readback_simple() */
    method AddWithReadbackSimple(data: seq<byte>, toOctet: nat, size: nat, tdo: array<byte>) returns (ok: bool)
      requires Valid(tdo) && |data| <= maxRxBufferBytes && 0 < size <= maxRxBufferBytes
      requires Max(0, Slack()) + OCTET_EXTRA_SIZE + NODE_SIZE <= 64
      requires |Run(ftChip.env, Promise(tdo).chip, data).out| == size && toOctet + size <= tdo.Length
      modifies this, ftChip`chip, ftChip`unread, pool, tdo
      ensures ftChip.reliable ==> ok
      ensures ok ==> Valid(tdo) && Promise(tdo) == Perform(ftChip.env, old(Promise(tdo)), data, TakeOctets(toOctet))
      ensures ok ==> Slack() <= Max(0, old(Slack())) + OCTET_EXTRA_SIZE + NODE_SIZE - 9 * |data|
      ensures ok ==> Pending() == Appended(old(WithRoom(|data|, size)), data, TakeOctets(toOctet), size)
    {
      hide Accounted, Outcome, ListStored, Laid, Run, Perform;
      ok := EnsureCanAppend(|data|, size, tdo);
      if ok {
        var e := NewOctetExtra(OctetExtra(tdo, toOctet, size), tdo);
        Append(data, OctetCopier, e, size, TakeOctets(toOctet), tdo);
      }
    }

    method NewOctetExtra(e: Record, ghost tdo: array<byte>) returns (p: nat)
      requires Valid(tdo) && Slack() + OCTET_EXTRA_SIZE <= 64
      modifies pool
      ensures Valid(tdo) && Pending() == old(Pending()) && Slack() == old(Slack()) + OCTET_EXTRA_SIZE
      ensures p in pool.objects && pool.objects[p] == e
    {
      hide Accounted, ListStored, Laid;
      p := NewRecord(OCTET_EXTRA_SIZE, e);
      ListOutlivesRecord(old(pool.objects), extras.objects, rxBuffer, queue, observers, tdo, p, e);
    }

    method NewRecord(size: nat, r: Record) returns (p: nat)
      requires pool.Valid() && pool.head % 8 == 0 && 0 < size && size % 8 == 0 && pool.head + size <= pool.end
      modifies pool
      ensures pool.Valid() && pool.head == old(pool.head) + size && pool.head % 8 == 0
      ensures p != 0 && p !in old(pool.objects) && pool.objects == old(pool.objects)[p := r]
    {
      hide Laid;
      KeepsAlignment(pool.head, size);
      p := pool.AllocObject(size, OBJECT_ALIGN, r);
    }
  }
}
