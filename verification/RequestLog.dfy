/** The bounded log of HTTP requests, kept per service as rows with running indices. */
module RequestLog {
  import opened Model

  const MAX_LOGS_PER_SERVICE: nat := 2000
  const I64_LIMIT: nat := 0x8000_0000_0000_0000
  const U64_LIMIT: nat := 0x1_0000_0000_0000_0000

  type U64 = x: nat | x < U64_LIMIT

  datatype Log = Log(service: Id, request: nat)

  /** Primary key of a row. */
  datatype Key = Key(service: Id, index: int)

  // ----- the plain history the table refines

  datatype Operation = Append(log: Log) | Delete(service: Id)

  /** Everything appended for a service since its log was last deleted. */
  function History(past: seq<Operation>, service: Id): seq<Log> {
    if past == [] then []
    else
      var before := History(past[..|past| - 1], service);
      match past[|past| - 1]
      case Append(log) => if log.service == service then before + [log] else before
      case Delete(deleted) => if deleted == service then [] else before
  }

  function Appended(past: seq<Operation>, service: Id): seq<Log> {
    if past == [] then []
    else
      var before, last := Appended(past[..|past| - 1], service), past[|past| - 1];
      if last.Append? && last.log.service == service then before + [last.log] else before
  }

  lemma {:induction false} HistoryIsSinceLastDelete(past: seq<Operation>, service: Id, k: nat)
    requires k < |past| && past[k] == Delete(service)
    requires forall j :: k < j < |past| ==> past[j] != Delete(service)
    ensures History(past, service) == Appended(past[k + 1..], service)
  {
    var n := |past| - 1;
    if k < n {
      HistoryIsSinceLastDelete(past[..n], service, k);
      assert past[k + 1..][..n - k - 1] == past[..n][k + 1..];
      assert past[k + 1..][n - k - 1] == past[n];
    }
  }

  function Start(history: seq<Log>): nat {
    if |history| <= MAX_LOGS_PER_SERVICE then 0 else |history| - MAX_LOGS_PER_SERVICE
  }

  /** The newest entries, at most the bound. */
  function Retained(history: seq<Log>): seq<Log> {
    history[Start(history)..]
  }

  function NewestFirst(logs: seq<Log>): (r: seq<Log>)
    ensures |r| == |logs| && forall k :: 0 <= k < |r| ==> r[k] == logs[|logs| - 1 - k]
  {
    seq(|logs|, k requires 0 <= k < |logs| => logs[|logs| - 1 - k])
  }

  /** The (limit, offset) slice a caller asks for. */
  function Slice(logs: seq<Log>, limit: nat, offset: nat): seq<Log> {
    if offset >= |logs| then []
    else if limit <= |logs| - offset then logs[offset..offset + limit] else logs[offset..]
  }

  /** It leaves out `offset` entries and has as many of the following ones as the limit allows. */
  lemma SliceExactly(logs: seq<Log>, limit: nat, offset: nat)
    ensures
      var r := Slice(logs, limit, offset);
      && (|r| == limit || (|r| < limit && |r| == if offset < |logs| then |logs| - offset else 0))
      && forall k :: 0 <= k < |r| ==> offset + k < |logs| && r[k] == logs[offset + k]
  {
  }

  // ----- SQL's reading of the two numbers

  /** The cast `as i64`. */
  function AsI64(x: U64): int {
    if x < I64_LIMIT then x else x - U64_LIMIT
  }

  /** A negative limit is no limit, a negative offset is none. */
  function SqlSlice(logs: seq<Log>, limit: int, offset: int): seq<Log> {
    var from := if offset < 0 then 0 else offset;
    if limit < 0 then Slice(logs, |logs|, from) else Slice(logs, limit, from)
  }

  /** A list call gives the requested slice, exactly unless its offset turns negative and rows are there to show. */
  lemma ListsRequestedSliceExactly(logs: seq<Log>, limit: U64, offset: U64)
    requires |logs| <= MAX_LOGS_PER_SERVICE
    ensures SqlSlice(logs, AsI64(limit), AsI64(offset)) == Slice(logs, limit, offset)
            <==> offset < I64_LIMIT || limit == 0 || logs == []
  {
    if offset >= I64_LIMIT {
      assert Slice(logs, limit, offset) == [];
      if logs != [] && limit != 0 {
        assert SqlSlice(logs, AsI64(limit), AsI64(offset))[0] == logs[0];
      }
    }
  }

  // ----- the table

  function KeysOf(rows: map<Key, Log>, service: Id): set<Key> {
    set k <- rows | k.service == service
  }

  /** A service's rows are its history from its first retained entry on. */
  ghost predicate Holds(rows: map<Key, Log>, service: Id, history: seq<Log>) {
    forall k: Key :: k.service == service ==>
      && (k in rows <==> Start(history) <= k.index < |history|)
      && (k in rows ==> rows[k] == history[k.index])
  }

  lemma KeyRangeSize(keys: set<Key>, service: Id, lo: int, hi: int)
    requires lo <= hi && forall k: Key :: k in keys <==> k.service == service && lo <= k.index < hi
    ensures |keys| == hi - lo
    decreases hi - lo
  {
    if lo == hi {
      assert keys == {};
    } else {
      KeyRangeSize(keys - {Key(service, lo)}, service, lo + 1, hi);
    }
  }

  lemma RetainedMany(rows: map<Key, Log>, service: Id, history: seq<Log>)
    requires Holds(rows, service, history)
    ensures |KeysOf(rows, service)| == |Retained(history)|
  {
    KeyRangeSize(KeysOf(rows, service), service, Start(history), |history|);
  }

  /** The rows without those of a service that are older than the bound. */
  function Trimmed(rows: map<Key, Log>, service: Id, newest: int): map<Key, Log> {
    map k | k in rows && !(k.service == service && k.index <= newest - MAX_LOGS_PER_SERVICE) :: rows[k]
  }

  lemma AppendHolds(rows: map<Key, Log>, log: Log, history: seq<Log>)
    requires Holds(rows, log.service, history)
    ensures Holds(Trimmed(rows[Key(log.service, |history|) := log], log.service, |history|),
                  log.service, history + [log])
  {
  }

  lemma AppendKeepsOthers(rows: map<Key, Log>, log: Log, index: int, service: Id, history: seq<Log>)
    requires Holds(rows, service, history) && service != log.service
    ensures Holds(Trimmed(rows[Key(log.service, index) := log], log.service, index), service, history)
  {
  }

  /** COALESCE(MAX(idx), -1) over the rows with these keys. */
  method CoalescedMax(keys: set<Key>) returns (max: int)
    requires forall k <- keys :: k.index >= 0
    ensures keys == {} ==> max == -1
    ensures keys != {} ==> exists k <- keys :: k.index == max
    ensures forall k <- keys :: k.index <= max
  {
    max := -1;
    var remaining := keys;
    while remaining != {}
      invariant remaining <= keys
      invariant if remaining == keys then max == -1 else exists k <- keys :: k.index == max
      invariant forall k <- keys - remaining :: k.index <= max
    {
      var key :| key in remaining;
      remaining := remaining - {key};
      if key.index > max {
        max := key.index;
      }
    }
  }

  class RequestLogTable {
    var rows: map<Key, Log>
    ghost var past: seq<Operation>

    constructor ()
      ensures Valid() && past == []
    {
      rows, past := map[], [];
    }

    ghost predicate Valid()
      reads this
    {
      forall service :: Holds(rows, service, History(past, service))
    }

    /** The rows of a service are contiguous and are its last entries since the last delete, oldest first. */
    lemma RowsAreRetainedHistory(service: Id)
      requires Valid()
      ensures
        var h := History(past, service);
        forall i :: (Key(service, i) in rows <==> 0 <= i - Start(h) < |Retained(h)|)
                 && (Key(service, i) in rows ==> rows[Key(service, i)] == Retained(h)[i - Start(h)])
      ensures |KeysOf(rows, service)| <= MAX_LOGS_PER_SERVICE
    {
      var h := History(past, service);
      assert Holds(rows, service, h);
      RetainedMany(rows, service, h);
      forall i ensures Key(service, i) in rows <==> Start(h) <= i < |h| {
        assert Key(service, i).service == service;
      }
    }

    /** Numbers the row after the newest one, then drops whatever is older than the bound. */
    method Append(log: Log)
      requires Valid()
      modifies this
      ensures Valid() && past == old(past) + [Operation.Append(log)]
    {
      ghost var h := History(past, log.service);
      assert Holds(rows, log.service, h);
      var max := CoalescedMax(KeysOf(rows, log.service));
      assert max == |h| - 1 by {
        if h != [] {
          assert Key(log.service, |h| - 1) in KeysOf(rows, log.service);
        }
      }
      var key := Key(log.service, max + 1);
      assert key !in rows;
      var inserted := rows[key := log];
      var newest := CoalescedMax(KeysOf(inserted, log.service));
      assert newest == |h| by {
        assert key in KeysOf(inserted, log.service);
      }
      ghost var rows0, past0 := rows, past;
      rows := Trimmed(inserted, log.service, newest);
      past := past + [Operation.Append(log)];
      assert past[..|past0|] == past0;
      forall service ensures Holds(rows, service, History(past, service)) {
        assert Holds(rows0, service, History(past0, service));
        if service == log.service {
          AppendHolds(rows0, log, h);
        } else {
          AppendKeepsOthers(rows0, log, newest, service, History(past0, service));
        }
      }
    }

    /** Drops a service's rows and says how many there were. */
    method Delete(service: Id) returns (count: nat)
      requires Valid()
      modifies this
      ensures Valid() && past == old(past) + [Operation.Delete(service)]
      ensures count == |Retained(History(old(past), service))|
    {
      assert Holds(rows, service, History(past, service));
      RetainedMany(rows, service, History(past, service));
      count := |KeysOf(rows, service)|;
      rows := map k | k in rows && k.service != service :: rows[k];
      past := past + [Operation.Delete(service)];
      forall other ensures Holds(rows, other, History(past, other)) {
        assert past[..|past| - 1] == old(past);
        assert Holds(old(rows), other, History(old(past), other));
      }
    }

    /** The rows in descending order of index, sliced as SQL reads the two numbers. */
    method List(service: Id, limit: U64, offset: U64) returns (page: seq<Log>)
      requires Valid()
      ensures page == SqlSlice(NewestFirst(Retained(History(past, service))), AsI64(limit), AsI64(offset))
    {
      ghost var h := History(past, service);
      assert Holds(rows, service, h);
      var remaining := KeysOf(rows, service);
      var sorted: seq<Log> := [];
      while remaining != {}
        invariant |sorted| <= |Retained(h)|
        invariant forall k: Key :: k in remaining <==> k.service == service && Start(h) <= k.index < |h| - |sorted|
        invariant forall k :: 0 <= k < |sorted| ==> sorted[k] == h[|h| - 1 - k]
        decreases |remaining|
      {
        var max := CoalescedMax(remaining);
        assert Key(service, |h| - 1 - |sorted|) in remaining by {
          var some :| some in remaining;
        }
        sorted := sorted + [rows[Key(service, max)]];
        remaining := remaining - {Key(service, max)};
      }
      assert |sorted| == |Retained(h)| by {
        assert Key(service, Start(h)) !in remaining;
      }
      assert sorted == NewestFirst(Retained(h));
      page := SqlSlice(sorted, AsI64(limit), AsI64(offset));
    }
  }
}
