/** The single ingestion choke point of the relay: check the quota and reserve the bytes. */
module Choke {
  import opened Wrappers
  import opened Bytes

  type Time = int

  /** The tenant's row of metering counters. */
  datatype Usage = Usage(storage: int, upload: int, windowStart: Time)

  datatype Limits = Limits(storage: Option<u64>, upload: Option<u64>, periodStart: Option<Time>, frozen: bool)

  /** `Overflow` is the database refusing a sum beyond 64 bits. */
  datatype Refusal = Frozen | StorageQuota(used: nat, limit: nat) | UploadQuota(used: nat, limit: nat) | Overflow

  /** An unsigned 64-bit value as the signed column stores it. */
  function Clip(n: nat): nat {
    if n > I64_MAX then I64_MAX else n
  }

  predicate Within(n: int, bound: Option<u64>) {
    bound.None? || n <= Clip(bound.value)
  }

  /** The row as `admit` first sees it: created if missing, its ingress window rolled forward. */
  function Opened(row: Option<Usage>, limits: Limits, now: Time): Usage {
    var u := if row.Some? then row.value else Usage(0, 0, now);
    if limits.periodStart.Some? && u.windowStart < limits.periodStart.value
    then u.(upload := 0, windowStart := limits.periodStart.value)
    else u
  }

  predicate Admits(u: Usage, limits: Limits, added: nat) {
    && !limits.frozen
    && u.storage + Clip(added) <= I64_MAX && u.upload + Clip(added) <= I64_MAX
    && Within(u.storage + Clip(added), limits.storage)
    && Within(u.upload + Clip(added), limits.upload)
  }

  function Charged(u: Usage, added: nat): Usage {
    u.(storage := u.storage + Clip(added), upload := u.upload + Clip(added))
  }

  /** The tenant is not frozen, and with the new bytes both counters, the upload counter starting over in a new
      billing period, stay within 63 bits and within their limits. */
  ghost predicate HasRoom(row: Option<Usage>, limits: Limits, added: nat, now: Time) {
    var u := if row.Some? then row.value else Usage(0, 0, now);
    var rolls := limits.periodStart.Some? && u.windowStart < limits.periodStart.value;
    var storage, upload := u.storage + Clip(added), (if rolls then 0 else u.upload) + Clip(added);
    && !limits.frozen && storage <= I64_MAX && upload <= I64_MAX
    && (limits.storage.Some? ==> storage <= Clip(limits.storage.value))
    && (limits.upload.Some? ==> upload <= Clip(limits.upload.value))
  }

  // ---- What the counters mean -----------------------------------------------------------------------

  datatype Request = Request(limits: Limits, added: u64, now: Time)

  function After(row: Option<Usage>, q: Request): Option<Usage> {
    if Admits(Opened(row, q.limits, q.now), q.limits, q.added)
    then Some(Charged(Opened(row, q.limits, q.now), q.added)) else row
  }

  /** The row after all the requests of a tenant. */
  function RowAfter(reqs: seq<Request>): Option<Usage> {
    if reqs == [] then None else After(RowAfter(reqs[..|reqs| - 1]), reqs[|reqs| - 1])
  }

  /** Those of the requests that were admitted, in order. */
  function Admitted(reqs: seq<Request>): seq<Request> {
    if reqs == [] then []
    else
      var earlier, q := reqs[..|reqs| - 1], reqs[|reqs| - 1];
      Admitted(earlier) + if Admits(Opened(RowAfter(earlier), q.limits, q.now), q.limits, q.added) then [q] else []
  }

  /** The bytes of the requests. */
  function TotalBytes(reqs: seq<Request>): nat {
    if reqs == [] then 0 else TotalBytes(reqs[..|reqs| - 1]) + Clip(reqs[|reqs| - 1].added)
  }

  /** When the billing period that the last of the requests fell into began: the latest period start that
      any of them named, or when the first was made. */
  function Period(reqs: seq<Request>): (w: Time)
    requires reqs != []
    ensures reqs[0].now <= w
    ensures forall q :: q in reqs && q.limits.periodStart.Some? ==> q.limits.periodStart.value <= w
    ensures w == reqs[0].now || exists q :: q in reqs && q.limits.periodStart == Some(w)
  {
    var q := reqs[|reqs| - 1];
    var before := if |reqs| == 1 then q.now else Period(reqs[..|reqs| - 1]);
    assert forall x :: x in reqs ==> x == q || x in reqs[..|reqs| - 1];
    assert q in reqs;
    if q.limits.periodStart.Some? && q.limits.periodStart.value > before then q.limits.periodStart.value else before
  }

  /** The bytes of those requests that fell into the period that began at `w`. */
  function BytesIn(reqs: seq<Request>, w: Time): nat {
    if reqs == [] then 0
    else BytesIn(reqs[..|reqs| - 1], w) + if Period(reqs) == w then Clip(reqs[|reqs| - 1].added) else 0
  }

  lemma {:induction false} NothingYet(reqs: seq<Request>, w: Time)
    requires reqs == [] || Period(reqs) < w
    ensures BytesIn(reqs, w) == 0
  {
    if reqs != [] {
      NothingYet(reqs[..|reqs| - 1], w);
    }
  }

  /** Over every sequence of requests: the storage counter is all the bytes admitted, the upload counter
      those admitted in the current billing period, and a refused request leaves no trace. */
  lemma {:induction false} CountersMean(reqs: seq<Request>)
    ensures var row, all := RowAfter(reqs), Admitted(reqs);
            && (row.None? <==> all == [])
            && (row.Some? ==>
                  && row.value.windowStart == Period(all)
                  && row.value.storage == TotalBytes(all)
                  && row.value.upload == BytesIn(all, Period(all)))
  {
    if reqs != [] {
      var earlier, q := reqs[..|reqs| - 1], reqs[|reqs| - 1];
      CountersMean(earlier);
      var all, was := Admitted(reqs), Admitted(earlier);
      if all != was {
        assert all == was + [q] && all[..|all| - 1] == was && all[|all| - 1] == q;
        if was == [] || Period(was) < Period(all) { NothingYet(was, Period(all)); }
      }
    }
  }

  /** The usage row, and `admit` on it. */
  class UsageTable {
    var row: Option<Usage>

    constructor ()
      ensures row == None
    {
      row := None;
    }

    /** Reserve `added` bytes, or refuse. A refusal also drops the transaction, so it leaves the
        row as it was. The refusal names the first resource that is in breach. */
    method Admit(limits: Limits, added: u64, now: Time) returns (refused: Option<Refusal>)
      requires row.Some? ==> 0 <= row.value.storage <= I64_MAX && 0 <= row.value.upload <= I64_MAX
      modifies this
      ensures row == After(old(row), Request(limits, added, now))
      ensures refused.None? <==> Admits(Opened(old(row), limits, now), limits, added)
      ensures refused.None? ==> row == Some(Charged(Opened(old(row), limits, now), added))
      ensures refused.None? <==> HasRoom(old(row), limits, added, now)
      ensures refused.Some? ==> row == old(row)
      ensures row.Some? ==> 0 <= row.value.storage <= I64_MAX && 0 <= row.value.upload <= I64_MAX
      ensures refused == Some(Frozen) <==> limits.frozen
      ensures refused.Some? && refused.value.StorageQuota? ==>
                && refused.value.used == Opened(old(row), limits, now).storage
                && limits.storage.Some? && refused.value.limit == Clip(limits.storage.value)
                && refused.value.used + Clip(added) > refused.value.limit
      ensures refused.Some? && refused.value.UploadQuota? ==>
                && refused.value.used == Opened(old(row), limits, now).upload
                && limits.upload.Some? && refused.value.limit == Clip(limits.upload.value)
                && refused.value.used + Clip(added) > refused.value.limit
    {
      var saved := row;
      if row.None? {
        row := Some(Usage(0, 0, now));
      }
      if limits.periodStart.Some? && row.value.windowStart < limits.periodStart.value {
        row := Some(row.value.(upload := 0, windowStart := limits.periodStart.value));
      }
      var u := row.value;
      if limits.frozen {
        row := saved;
        return Some(Frozen);
      }
      var bytes := Clip(added);
      if u.storage + bytes > I64_MAX || u.upload + bytes > I64_MAX {
        row := saved;
        return Some(Overflow);
      }
      if Within(u.storage + bytes, limits.storage) && Within(u.upload + bytes, limits.upload) {
        row := Some(u.(storage := u.storage + bytes, upload := u.upload + bytes));
        return None;
      }
      row := saved;
      if limits.storage.Some? && u.storage + bytes > Clip(limits.storage.value) {
        return Some(StorageQuota(u.storage, Clip(limits.storage.value)));
      }
      return Some(UploadQuota(u.upload, Clip(limits.upload.value)));
    }
  }
}
