/**
 * `POST /api/roulette/join` (app/api/roulette/join/route.ts): a guest adds a name to the
 * roulette, at most once every four seconds per client address.
 */
module RouletteJoin {
  import opened Wrappers
  import opened JsText
  import opened Js
  import opened Roulette

  /** Minimum delay, in milliseconds, between two accepted requests from one address. */
  const CooldownMs := 4000

  /**
   * `getIP`: the first entry of `x-forwarded-for`, trimmed; else `x-real-ip` as sent;
   * else `"unknown"`. Empty headers count as absent.
   */
  function ClientIp(req: Request): string {
    var xf := Header(req, "x-forwarded-for");
    if xf.Some? && xf.value != [] then FirstForwarded(xf.value)
    else
      var xr := Header(req, "x-real-ip");
      if xr.Some? && xr.value != [] then xr.value else "unknown"
  }

  /** A proxy chain `client, proxy1, …` is attributed to its first, trimmed entry. */
  lemma ClientIpFirstForwarded(req: Request, first: string, others: string)
    requires ',' !in first
    requires Header(req, "x-forwarded-for") == Some(first + [','] + others)
    ensures ClientIp(req) == Trim(first)
  {
    FirstForwardedOfChain(first, others);
  }

  /** A single forwarded address is used trimmed, whatever `x-real-ip` says. */
  lemma ClientIpSingleForwarded(req: Request, ip: string)
    requires ip != [] && ',' !in ip
    requires Header(req, "x-forwarded-for") == Some(ip)
    ensures ClientIp(req) == Trim(ip)
  {
    FirstForwardedOfSingle(ip);
  }

  /** Without forwarding headers the address falls back to `x-real-ip`, then `"unknown"`. */
  lemma ClientIpFallback(req: Request)
    requires Header(req, "x-forwarded-for") in {None, Some([])}
    ensures Header(req, "x-real-ip").Some? && Header(req, "x-real-ip").value != [] ==>
      ClientIp(req) == Header(req, "x-real-ip").value
    ensures Header(req, "x-real-ip") in {None, Some([])} ==> ClientIp(req) == "unknown"
  {
  }

  /** Whether a request at `now` falls inside the address's cooldown. */
  predicate InCooldown(ipLast: map<string, int>, ip: string, now: int) {
    now - StampOrZero(ipLast, ip) < CooldownMs
  }

  /** After a request is let through at `now`, the same address is refused until `now + 4000`. */
  lemma CooldownAfterAccept(ipLast: map<string, int>, ip: string, now: int, later: int)
    ensures InCooldown(ipLast[ip := now], ip, later) <==> later < now + CooldownMs
  {
  }

  /** Letting one address through leaves every other address's cooldown as it was. */
  lemma CooldownPerAddress(ipLast: map<string, int>, ip: string, other: string, now: int, later: int)
    requires other != ip
    ensures InCooldown(ipLast[ip := now], other, later) == InCooldown(ipLast, other, later)
  {
  }

  /** `String(body?.name || "").trim()`, a body that is not JSON read as `{}`. */
  function RequestedName(req: Request): string {
    TrimmedText(Get(BodyOr(req.body, Obj(map[])), "name"))
  }

  /** A body that carries a name as a string yields that name trimmed. */
  lemma RequestedNameOfString(req: Request, raw: string)
    requires req.body == Some(Obj(map["name" := Str(raw)]))
    ensures RequestedName(req) == Trim(raw)
  {
  }

  /** A missing body, a body without `name`, or a falsy `name` asks for the empty name. */
  lemma RequestedNameMissing(req: Request)
    requires req.body.None? || !Truthy(Get(req.body.value, "name"))
    ensures RequestedName(req) == []
  {
  }

  /** The three answers: 429 `cooldown`, 400 `missing_name`, or 200 with the roulette. */
  datatype JoinReply = Cooldown | MissingName | Joined(roulette: RouletteData)

  /** The route module: its per-address memory and the roulette it writes to. */
  class JoinRoute {
    var ipLast: map<string, int>
    const store: RouletteStore

    constructor (store: RouletteStore)
      ensures ipLast == map[] && this.store == store
    {
      ipLast := map[];
      this.store := store;
    }

    /**
     * `POST`: a request inside the cooldown changes nothing; otherwise the address is
     * stamped at once (even if the name then turns out to be missing) and a non-blank
     * name is added to the roulette.
     */
    method Post(req: Request, now: int) returns (reply: JoinReply)
      modifies this, store
      ensures InCooldown(old(ipLast), ClientIp(req), now) ==>
        reply == Cooldown && ipLast == old(ipLast) && unchanged(store)
      ensures !InCooldown(old(ipLast), ClientIp(req), now) ==>
        ipLast == old(ipLast)[ClientIp(req) := now]
      ensures !InCooldown(old(ipLast), ClientIp(req), now) && RequestedName(req) == [] ==>
        reply == MissingName && unchanged(store)
      ensures !InCooldown(old(ipLast), ClientIp(req), now) && RequestedName(req) != [] ==>
        reply == Joined(Join(ReadValue(old(store.file), old(store.shared)), RequestedName(req)))
        && store.file == JoinFile(old(store.file), old(store.shared), RequestedName(req))
        && store.writes == old(store.writes) + JoinWrites(old(store.file), old(store.shared), RequestedName(req))
        && store.shared == SharedAfterJoin(old(store.file), old(store.shared), RequestedName(req))
    {
      var ip := ClientIp(req);
      var last := StampOrZero(ipLast, ip);
      if now - last < CooldownMs {
        return Cooldown;
      }
      ipLast := ipLast[ip := now];
      var body := BodyOr(req.body, Obj(map[]));
      var name := TrimmedText(Get(body, "name"));
      if name == [] {
        return MissingName;
      }
      var roulette := store.AddParticipant(name);
      reply := Joined(roulette);
    }
  }
}
