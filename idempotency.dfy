/**
 * The idempotency ledger (`withIdempotency`): a write endpoint called with an
 * idempotency key runs its handler at most once per (tenant, endpoint, key);
 * a repeat with the same request body replays the stored response and a
 * repeat with a different body is refused with 409.
 */
module Idempotency {
  import opened Wrappers
  import opened Text

  /** The primary key of `idempotency_keys`. */
  datatype LedgerKey = LedgerKey(tenantId: string, endpoint: string, key: string)

  /** What is stored for a key: the hash of the request body and the handler's result. */
  datatype LedgerRecord<T> = LedgerRecord(requestHash: string, response: T)

  /** The value `withIdempotency` resolves to. */
  datatype Executed<T> = Executed(replayed: bool, result: T)

  /**
   * One call: the ledger afterwards, whether the handler ran (and so whether
   * its own effects happened), and what the call returns or throws.
   */
  datatype Outcome<T> = Outcome(ledger: map<LedgerKey, LedgerRecord<T>>, ranHandler: bool, result: Result<Executed<T>>)

  const ConflictError := HttpError(409, "Idempotency key reuse with different payload")

  /**
   * `withIdempotency(tenantId, endpoint, idemKey, body, handler)`, where
   * `hash` is the request digest (`sha256`) and `handler` is what the
   * handler returns or throws if it is run.
   */
  function Execute<T, B>(ledger: map<LedgerKey, LedgerRecord<T>>, tenantId: string, endpoint: string, idemKey: Option<string>,
                         body: B, hash: B -> string, handler: Result<T>): (o: Outcome<T>)
    // the ledger only ever grows, by at most the one key of this call
    ensures forall k :: k in ledger ==> k in o.ledger && o.ledger[k] == ledger[k]
    ensures forall k :: k in o.ledger && k !in ledger ==> Truthy(idemKey) && k == LedgerKey(tenantId, endpoint, idemKey.value)
    // the handler runs exactly when there is nothing to replay or refuse
    ensures o.ranHandler <==> !Truthy(idemKey) || LedgerKey(tenantId, endpoint, idemKey.value) !in ledger
    ensures o.ranHandler ==> (o.result.Ok? <==> handler.Ok?)
    ensures o.ranHandler && handler.Ok? ==> o.result.value == Executed(false, handler.value)
    ensures o.ranHandler && handler.Err? ==> o.result == Err(handler.error) && o.ledger == ledger
    ensures o.result.Ok? && o.result.value.replayed ==> !o.ranHandler && o.ledger == ledger
  {
    if !Truthy(idemKey) then
      Outcome(ledger, true, match handler case Ok(v) => Ok(Executed(false, v)) case Err(e) => Err(e))
    else
      var k := LedgerKey(tenantId, endpoint, idemKey.value);
      var requestHash := hash(body);
      if k in ledger then
        if ledger[k].requestHash != requestHash then Outcome(ledger, false, Err(ConflictError))
        else Outcome(ledger, false, Ok(Executed(true, ledger[k].response)))
      else match handler
        case Err(e) => Outcome(ledger, true, Err(e))
        case Ok(v) => Outcome(ledger[k := LedgerRecord(requestHash, v)], true, Ok(Executed(false, v)))
  }

  /** Without a key the ledger is neither consulted nor written. */
  lemma NoKeyBypassesLedger<T, B>(ledger: map<LedgerKey, LedgerRecord<T>>, ledger2: map<LedgerKey, LedgerRecord<T>>, tenantId: string, endpoint: string,
                                  idemKey: Option<string>, body: B, hash: B -> string, handler: Result<T>)
    requires !Truthy(idemKey)
    ensures var o := Execute(ledger, tenantId, endpoint, idemKey, body, hash, handler);
      && o.ledger == ledger && o.ranHandler
      && o.result == Execute(ledger2, tenantId, endpoint, idemKey, body, hash, handler).result
  {
  }

  /** A stored record with another hash refuses the call with 409, without running the handler. */
  lemma ConflictRefuses<T, B>(ledger: map<LedgerKey, LedgerRecord<T>>, tenantId: string, endpoint: string, key: string,
                              body: B, hash: B -> string, handler: Result<T>)
    requires key != ""
    requires LedgerKey(tenantId, endpoint, key) in ledger && ledger[LedgerKey(tenantId, endpoint, key)].requestHash != hash(body)
    ensures Execute(ledger, tenantId, endpoint, Some(key), body, hash, handler) == Outcome(ledger, false, Err(ConflictError))
  {
  }

  /** A stored record with the same hash is replayed, without running the handler. */
  lemma SameHashReplays<T, B>(ledger: map<LedgerKey, LedgerRecord<T>>, tenantId: string, endpoint: string, key: string,
                              body: B, hash: B -> string, handler: Result<T>)
    requires key != ""
    requires LedgerKey(tenantId, endpoint, key) in ledger && ledger[LedgerKey(tenantId, endpoint, key)].requestHash == hash(body)
    ensures Execute(ledger, tenantId, endpoint, Some(key), body, hash, handler)
      == Outcome(ledger, false, Ok(Executed(true, ledger[LedgerKey(tenantId, endpoint, key)].response)))
  {
  }

  /** A new key runs the handler once and, if it succeeds, records exactly its result under the triple. */
  lemma NewKeyRecords<T, B>(ledger: map<LedgerKey, LedgerRecord<T>>, tenantId: string, endpoint: string, key: string,
                            body: B, hash: B -> string, handler: Result<T>)
    requires key != "" && LedgerKey(tenantId, endpoint, key) !in ledger
    ensures var o := Execute(ledger, tenantId, endpoint, Some(key), body, hash, handler);
      && o.ranHandler
      && (handler.Ok? ==> o.ledger == ledger[LedgerKey(tenantId, endpoint, key) := LedgerRecord(hash(body), handler.value)])
      && (handler.Err? ==> o.ledger == ledger)
  {
  }

  /**
   * Round trip: once a keyed call has succeeded, repeating it with the same
   * tenant, endpoint, key and body replays its result, whatever the handler
   * would do now, and runs nothing.
   */
  lemma RepeatReplays<T, B>(ledger: map<LedgerKey, LedgerRecord<T>>, tenantId: string, endpoint: string, key: string,
                            body: B, hash: B -> string, first: Result<T>, second: Result<T>)
    requires key != ""
    requires Execute(ledger, tenantId, endpoint, Some(key), body, hash, first).result.Ok?
    ensures var o1 := Execute(ledger, tenantId, endpoint, Some(key), body, hash, first);
      var o2 := Execute(o1.ledger, tenantId, endpoint, Some(key), body, hash, second);
      && o2.ledger == o1.ledger && !o2.ranHandler
      && o2.result == Ok(Executed(true, o1.result.value.result))
  {
  }

  /**
   * Scoping: records under any other (tenant, endpoint, key) triple do not
   * change what a call does.
   */
  lemma OtherTriplesIrrelevant<T, B>(ledger: map<LedgerKey, LedgerRecord<T>>, other: LedgerKey, rec: LedgerRecord<T>,
                                     tenantId: string, endpoint: string, key: string, body: B, hash: B -> string, handler: Result<T>)
    requires other != LedgerKey(tenantId, endpoint, key)
    ensures var o := Execute(ledger, tenantId, endpoint, Some(key), body, hash, handler);
      var o' := Execute(ledger[other := rec], tenantId, endpoint, Some(key), body, hash, handler);
      o'.ranHandler == o.ranHandler && o'.result == o.result
  {
  }

  /** The `idempotency_keys` table. */
  class Ledger<T> {
    var records: map<LedgerKey, LedgerRecord<T>>

    constructor()
      ensures records == map[]
    {
      records := map[];
    }

    /** `withIdempotency`; `ranHandler` tells the caller whether the handler's effects took place. */
    method WithIdempotency<B>(tenantId: string, endpoint: string, idemKey: Option<string>, body: B, hash: B -> string, handler: Result<T>)
      returns (result: Result<Executed<T>>, ranHandler: bool)
      modifies this
      ensures var o := Execute(old(records), tenantId, endpoint, idemKey, body, hash, handler);
        records == o.ledger && ranHandler == o.ranHandler && result == o.result
    {
      if !Truthy(idemKey) {
        ranHandler := true;
        match handler {
          case Ok(v) => result := Ok(Executed(false, v));
          case Err(e) => result := Err(e);
        }
        return;
      }
      var k := LedgerKey(tenantId, endpoint, idemKey.value);
      var requestHash := hash(body);
      if k in records {
        ranHandler := false;
        if records[k].requestHash != requestHash {
          result := Err(ConflictError);
        } else {
          result := Ok(Executed(true, records[k].response));
        }
        return;
      }
      ranHandler := true;
      match handler {
        case Err(e) =>
          result := Err(e);
        case Ok(v) =>
          records := records[k := LedgerRecord(requestHash, v)];
          result := Ok(Executed(false, v));
      }
    }
  }
}
