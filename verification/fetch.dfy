/**
 * The availability fetcher `check_stock`: one HTTP GET per package, reduced
 * to a tri-state answer. The network call itself is not modelled; its
 * outcome is given as an `Reply`.
 */
module Fetch {
  import opened Wrappers
  import opened Json

  /** What `requests.get(url, timeout=10)` produced. */
  datatype Reply =
    | Unreachable                                  // connection error, timeout, ...
    | Response(status: int, body: Option<Value>)   // body None: `response.json()` raised

  /** `response.raise_for_status()` raises exactly for client and server error codes. */
  predicate RaisesForStatus(status: int) {
    400 <= status < 600
  }

  /**
   * The Python value `check_stock` returns, `Null` standing for `None`:
   * `data.get("response", {}).get("inventory_available", False)`, with every
   * exception on the way (network, status, decoding, `.get` on a non-dict)
   * caught and turned into `None`.
   */
  function CheckStock(reply: Reply): (r: Value)
    ensures Raised(reply) ==> r == Null
    ensures LacksFlag(reply) ==> r == Bool(false)
    ensures forall flag :: Carries(reply, flag) ==> r == flag
  {
    if reply.Unreachable? || RaisesForStatus(reply.status) || reply.body.None? then Null
    else Lookup(reply.body.value)
  }

  /** `data.get("response", {}).get("inventory_available", False)`; `Null` where `.get` meets a non-dict. */
  function Lookup(data: Value): Value {
    if !data.Object? then Null
    else
      var response := GetOr(data.fields, "response", Object(map[]));
      if !response.Object? then Null
      else GetOr(response.fields, "inventory_available", Bool(false))
  }

  /**
   * How `main` reads a result: `is None` means unknown; anything else counts
   * as its truthiness.
   */
  function Outcome(v: Value): (o: Option<bool>)
    ensures o.None? <==> v == Null
    ensures o.Some? ==> (o.value <==> Truthy(v))
  {
    if v.Null? then None else Some(Truthy(v))
  }

  /**
   * The tri-state answer of one fetch. A body without `response` or without
   * `inventory_available` reads as unavailable, not unknown; unknown means
   * that `check_stock` raised, or that the API sent an explicit `null`.
   */
  function Availability(reply: Reply): (o: Option<bool>)
    ensures LacksFlag(reply) ==> o == Some(false)
    ensures Raised(reply) ==> o == None
    ensures o == None <==> Raised(reply) || Carries(reply, Null)
    ensures forall b: bool :: Carries(reply, Bool(b)) ==> o == Some(b)
  {
    Outcome(CheckStock(reply))
  }

  /** One `check_stock` result per reply, in order. */
  function Checks(replies: seq<Reply>): (vs: seq<Value>)
    ensures |vs| == |replies|
    ensures forall i :: 0 <= i < |replies| ==> vs[i] == CheckStock(replies[i])
  {
    seq(|replies|, i requires 0 <= i < |replies| => CheckStock(replies[i]))
  }

  /** The tri-state reading of each result, in order. */
  function Outcomes(vs: seq<Value>): (os: seq<Option<bool>>)
    ensures |os| == |vs|
    ensures forall i :: 0 <= i < |vs| ==> os[i] == Outcome(vs[i])
  {
    seq(|vs|, i requires 0 <= i < |vs| => Outcome(vs[i]))
  }

  /** A well-formed body whose `response` object carries the flag. */
  predicate Carries(reply: Reply, flag: Value) {
    && reply.Response?
    && !RaisesForStatus(reply.status)
    && reply.body.Some?
    && reply.body.value.Object?
    && "response" in reply.body.value.fields
    && reply.body.value.fields["response"].Object?
    && "inventory_available" in reply.body.value.fields["response"].fields
    && reply.body.value.fields["response"].fields["inventory_available"] == flag
  }

  /** A decodable success body that lacks `response`, or whose `response` lacks the flag. */
  predicate LacksFlag(reply: Reply) {
    && reply.Response?
    && !RaisesForStatus(reply.status)
    && reply.body.Some?
    && reply.body.value.Object?
    && ("response" in reply.body.value.fields ==>
          && reply.body.value.fields["response"].Object?
          && "inventory_available" !in reply.body.value.fields["response"].fields)
  }

  /** A fetch that raised inside `check_stock` and was caught. */
  predicate Raised(reply: Reply) {
    || reply.Unreachable?
    || RaisesForStatus(reply.status)
    || reply.body.None?
    || !reply.body.value.Object?
    || ("response" in reply.body.value.fields && !reply.body.value.fields["response"].Object?)
  }

  /** Every reply raised, lacks the flag, or carries some flag value. */
  lemma {:induction false} Exhaustive(reply: Reply)
    ensures Raised(reply) || LacksFlag(reply)
            || (exists flag :: Carries(reply, flag))
  {
    if !Raised(reply) && !LacksFlag(reply) {
      var flag := reply.body.value.fields["response"].fields["inventory_available"];
      assert Carries(reply, flag);
    }
  }
}
