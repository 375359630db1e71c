/** `Classes/APIBots/utils.js`: the module-level memo maps in front of the
    ENS reverse lookup and the OpenSea user lookup. Each remote call is a
    function parameter; the cache is threaded through explicitly. */
module NameCache {
  import opened Common

  /** `ensAddressMap` or `osAddressMap`: address to name. */
  type Cache = map<string, string>

  /** `if (map[address])`: present and truthy, so a cached `''` is a miss. */
  predicate Hit(cache: Cache, address: string) {
    address in cache && cache[address] != ""
  }

  /** The name a lookup returns (or the error it throws), the cache after
      it, and whether the remote service was consulted. */
  datatype NameLookup = NameLookup(name: Result<string>, cache: Cache, lookedUp: bool)

  /** Every non-empty entry of `before` is still in `after`, unchanged. */
  predicate KeepsNames(before: Cache, after: Cache) {
    forall a :: a in before && before[a] != "" ==> a in after && after[a] == before[a]
  }

  /** `value ?? ''` */
  function OrEmpty(n: Option<string>): string {
    if n.Some? then n.value else ""
  }

  /** `getENSName`. `resolve(address)` is `provider.lookupAddress`: it throws
      (`Failed`), answers null (`Ok(None)`) or a name. */
  function GetENSName(cache: Cache, address: string, resolve: string -> Result<Option<string>>): (r: NameLookup)
    ensures Hit(cache, address) ==> r == NameLookup(Ok(cache[address]), cache, false)
    ensures !Hit(cache, address) ==> r.lookedUp && (r.name.Ok? <==> resolve(address).Ok?)
    ensures r.name.Failed? ==> r.cache == cache
    ensures r.name.Ok? && r.lookedUp ==> r.name.value == OrEmpty(resolve(address).value)
    ensures r.name.Ok? ==> address in r.cache && r.cache[address] == r.name.value
    ensures r.name.Ok? ==> (r.cache.Keys == cache.Keys + {address}
      && forall a :: a in cache && a != address ==> r.cache[a] == cache[a])
    ensures KeepsNames(cache, r.cache)
  {
    if Hit(cache, address) then NameLookup(Ok(cache[address]), cache, false)
    else
      match resolve(address)
      case Failed => NameLookup(Failed, cache, true)
      case Ok(ens) =>
        var name := OrEmpty(ens);
        NameLookup(Ok(name), cache[address := name], true)
  }

  /** `ensOrAddress`: the ENS name when it is non-empty, else the address;
      a failing lookup propagates. */
  function EnsOrAddress(cache: Cache, address: string, resolve: string -> Result<Option<string>>): (r: NameLookup)
    ensures r.cache == GetENSName(cache, address, resolve).cache
    ensures r.lookedUp == GetENSName(cache, address, resolve).lookedUp
    ensures r.name.Failed? <==> GetENSName(cache, address, resolve).name.Failed?
    ensures r.name.Ok? && address != "" ==> r.name.value != ""
    ensures r.name.Ok? ==> r.name.value == address || r.name.value == GetENSName(cache, address, resolve).name.value
    ensures Hit(cache, address) ==> r.name == Ok(cache[address])
    ensures GetENSName(cache, address, resolve).name.Ok? ==>
      var n := GetENSName(cache, address, resolve).name.value;
      r.name == Ok(if n != "" then n else address)
  {
    var ens := GetENSName(cache, address, resolve);
    match ens.name
    case Failed => ens
    case Ok(n) => NameLookup(Ok(if n != "" then n else address), ens.cache, ens.lookedUp)
  }

  /** Once a lookup has found a non-empty name, later calls return it
      without consulting the provider, whatever it would now answer. */
  lemma EnsMemoizes(cache: Cache, address: string, resolve: string -> Result<Option<string>>, later: string -> Result<Option<string>>, n: string)
    requires !Hit(cache, address)
    requires resolve(address) == Ok(Some(n)) && n != ""
    ensures var first := GetENSName(cache, address, resolve);
      && first == NameLookup(Ok(n), cache[address := n], true)
      && GetENSName(first.cache, address, later) == NameLookup(Ok(n), first.cache, false)
  {
  }

  /** An address without a name is cached as `''`, which is not a hit, so
      every later call asks the provider again. */
  lemma EnsEmptyNameAskedAgain(cache: Cache, address: string, resolve: string -> Result<Option<string>>)
    requires !Hit(cache, address)
    requires resolve(address) == Ok(None)
    ensures var first := GetENSName(cache, address, resolve);
      var second := GetENSName(first.cache, address, resolve);
      && first.name == Ok("") && first.cache[address] == ""
      && second.lookedUp && second == NameLookup(Ok(""), first.cache, true)
  {
    var first := GetENSName(cache, address, resolve);
    assert !Hit(first.cache, address);
  }

  /** `await getENSName(a)` for each address in turn; the first error ends
      the sequence. */
  function EnsRun(cache: Cache, addresses: seq<string>, resolve: string -> Result<Option<string>>): Result<Cache>
    decreases |addresses|
  {
    if addresses == [] then Ok(cache)
    else
      var step := GetENSName(cache, addresses[0], resolve);
      if step.name.Failed? then Failed else EnsRun(step.cache, addresses[1..], resolve)
  }

  /** Over any run of lookups, a name once cached is never lost or changed,
      and every address asked about ends up in the cache. */
  lemma {:induction false} EnsRunKeepsNames(cache: Cache, addresses: seq<string>, resolve: string -> Result<Option<string>>)
    ensures EnsRun(cache, addresses, resolve).Ok? ==>
      KeepsNames(cache, EnsRun(cache, addresses, resolve).value)
      && forall i :: 0 <= i < |addresses| ==> addresses[i] in EnsRun(cache, addresses, resolve).value
    decreases |addresses|
  {
    if addresses != [] {
      var step := GetENSName(cache, addresses[0], resolve);
      if step.name.Ok? {
        EnsRunKeepsNames(step.cache, addresses[1..], resolve);
        var final := EnsRun(step.cache, addresses[1..], resolve);
        if final.Ok? {
          assert addresses[0] in step.cache && step.cache[addresses[0]] == step.name.value;
          forall i | 0 <= i < |addresses|
            ensures addresses[i] in final.value
          {
            if i > 0 {
              assert addresses[i] == addresses[1..][i - 1];
            } else if step.name.value == "" {
              assert addresses[0] in final.value by {
                EnsRunKeepsKeys(step.cache, addresses[1..], resolve);
              }
            }
          }
        }
      }
    }
  }

  lemma {:induction false} EnsRunKeepsKeys(cache: Cache, addresses: seq<string>, resolve: string -> Result<Option<string>>)
    ensures EnsRun(cache, addresses, resolve).Ok? ==> cache.Keys <= EnsRun(cache, addresses, resolve).value.Keys
    decreases |addresses|
  {
    if addresses != [] {
      var step := GetENSName(cache, addresses[0], resolve);
      if step.name.Ok? {
        EnsRunKeepsKeys(step.cache, addresses[1..], resolve);
      }
    }
  }

  // ---------------------------------------------------------------------
  // OpenSea user names

  /** The OpenSea user request: the fetch or the JSON parse throws, or a
      body with an optional `detail` and an optional `username`. */
  datatype OsReply = OsThrew | OsBody(detail: Option<string>, username: Option<string>)

  /** A body without a truthy `detail` field. */
  predicate OsAccepted(reply: OsReply) {
    reply.OsBody? && (reply.detail.None? || reply.detail.value == "")
  }

  /** `getOSName`: never throws; a failure answers `''` and is not cached. */
  function GetOSName(cache: Cache, address: string, fetch: string -> OsReply): (r: NameLookup)
    ensures r.name.Ok?
    ensures Hit(cache, address) ==> r == NameLookup(Ok(cache[address]), cache, false)
    ensures !Hit(cache, address) ==> r.lookedUp
    ensures !Hit(cache, address) && OsAccepted(fetch(address)) ==>
      r.name.value == OrEmpty(fetch(address).username) && r.cache == cache[address := r.name.value]
    ensures !Hit(cache, address) && !OsAccepted(fetch(address)) ==> r.name == Ok("") && r.cache == cache
    ensures KeepsNames(cache, r.cache)
  {
    if Hit(cache, address) then NameLookup(Ok(cache[address]), cache, false)
    else
      var reply := fetch(address);
      if OsAccepted(reply) then
        var name := OrEmpty(reply.username);
        NameLookup(Ok(name), cache[address := name], true)
      else
        NameLookup(Ok(""), cache, true)
  }

  /** A rate-limited request leaves no trace, so the next call asks again;
      once a name is stored it is served from the cache. */
  lemma OsRetryAfterFailure(cache: Cache, address: string, failing: string -> OsReply, working: string -> OsReply, later: string -> OsReply)
    requires !Hit(cache, address)
    requires !OsAccepted(failing(address))
    requires working(address) == OsBody(None, Some("alice"))
    ensures var first := GetOSName(cache, address, failing);
      var second := GetOSName(first.cache, address, working);
      var third := GetOSName(second.cache, address, later);
      && first == NameLookup(Ok(""), cache, true)
      && second == NameLookup(Ok("alice"), cache[address := "alice"], true)
      && third == NameLookup(Ok("alice"), second.cache, false)
  {
  }
}
