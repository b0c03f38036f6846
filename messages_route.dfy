/**
 * `/api/messages` (app/api/messages/route.ts): posting to the wall, at most once every
 * eight seconds per client address, with the name and text cleaned and capped.
 */
module MessagesRoute {
  import opened Wrappers
  import opened JsText
  import opened Js
  import opened Messages

  /** `COOLDOWN_MS` */
  const CooldownMs := 8000

  /** `getIP`: the first forwarded entry, else `x-real-ip`, both trimmed; else `"unknown"`. */
  function ClientIp(req: Request): string {
    var xf := Header(req, "x-forwarded-for");
    if xf.Some? && xf.value != [] then FirstForwarded(xf.value)
    else
      var xr := Header(req, "x-real-ip");
      if xr.Some? && xr.value != [] then Trim(xr.value) else "unknown"
  }

  /** Without a forwarded chain, this route, unlike the roulette, trims `x-real-ip`. */
  lemma ClientIpSpec(req: Request, xr: string)
    requires Header(req, "x-forwarded-for") in {None, Some([])}
    requires Header(req, "x-real-ip") == Some(xr) && xr != []
    ensures ClientIp(req) == Trim(xr)
  {
  }

  /**
   * `x-forwarded-for` wins over `x-real-ip`: a chain `client, proxy, …` or a single
   * address is attributed to its first entry, trimmed.
   */
  lemma ClientIpForwarded(req: Request, first: string, others: string)
    requires ',' !in first
    ensures Header(req, "x-forwarded-for") == Some(first + [','] + others) ==> ClientIp(req) == Trim(first)
    ensures Header(req, "x-forwarded-for") == Some(first) && first != [] ==> ClientIp(req) == Trim(first)
  {
    FirstForwardedOfChain(first, others);
    FirstForwardedOfSingle(first);
  }

  /** With neither header, or both empty, the address is `"unknown"`. */
  lemma ClientIpUnknown(req: Request)
    requires Header(req, "x-forwarded-for") in {None, Some([])}
    requires Header(req, "x-real-ip") in {None, Some([])}
    ensures ClientIp(req) == "unknown"
  {
  }

  /** `Math.ceil(x / 1000)` on an integer number of milliseconds. */
  function CeilSeconds(x: int): int {
    -((-x) / 1000)
  }

  /** The wait hint: whole seconds left of the cooldown, rounded up. */
  function Wait(elapsed: int): int {
    CeilSeconds(CooldownMs - elapsed)
  }

  /** The hint is the least number of whole seconds after which the cooldown is over. */
  lemma WaitIsLeast(elapsed: int)
    ensures 1000 * (Wait(elapsed) - 1) < CooldownMs - elapsed <= 1000 * Wait(elapsed)
  {
  }

  /** Inside the cooldown (0 <= elapsed < 8000) the hint is between 1 and 8 seconds. */
  lemma WaitBounds(elapsed: int)
    requires 0 <= elapsed < CooldownMs
    ensures 1 <= Wait(elapsed) <= 8
  {
    WaitIsLeast(elapsed);
  }

  /** The cleaned name: trimmed, then cut to 24 characters. */
  function CleanName(body: Value): (name: string)
    ensures |name| == if |TrimmedText(Get(body, "name"))| < 24 then |TrimmedText(Get(body, "name"))| else 24
    ensures name <= TrimmedText(Get(body, "name"))
  {
    Take(TrimmedText(Get(body, "name")), 24)
  }

  /** The cleaned text: trimmed, then cut to 240 characters. */
  function CleanText(body: Value): (text: string)
    ensures |text| == if |TrimmedText(Get(body, "text"))| < 240 then |TrimmedText(Get(body, "text"))| else 240
    ensures text <= TrimmedText(Get(body, "text"))
  {
    Take(TrimmedText(Get(body, "text")), 240)
  }

  /** The text is empty after cleaning exactly when it was blank. */
  lemma CleanTextEmptyIff(body: Value)
    ensures CleanText(body) == [] <==> AllSpace(StrOrEmpty(Get(body, "text")))
  {
    TrimEmptyIff(StrOrEmpty(Get(body, "text")));
  }

  /** `name || "Anonyme"` */
  function ShownName(name: string): (shown: string)
    ensures name == [] ==> shown == "Anonyme"
    ensures name != [] ==> shown == name
  {
    if name != [] then name else "Anonyme"
  }

  /** The message a valid post stores. */
  function NewMessage(body: Value, id: string, createdAt: int): WallMessage {
    WallMessage(id, ShownName(CleanName(body)), CleanText(body), createdAt)
  }

  /** The answers of POST: all with status 200, only `Posted` with `ok: true`. */
  datatype PostReply = TooSoon(wait: int) | EmptyMessage | Posted

  /** What a POST decides: the reply, the new per-address memory, and the message stored if any. */
  datatype PostStep = PostStep(reply: PostReply, ipLastPost: map<string, int>, stored: Option<WallMessage>)

  /** Whether a post at `now` falls inside the address's cooldown. */
  predicate InCooldown(ipLastPost: map<string, int>, ip: string, now: int) {
    now - StampOrZero(ipLastPost, ip) < CooldownMs
  }

  /** POST's decision for a request at `now`, the new message getting `id`. */
  function Decide(ipLastPost: map<string, int>, req: Request, now: int, id: string): PostStep {
    var ip := ClientIp(req);
    var body := BodyOr(req.body, Obj(map[]));
    if InCooldown(ipLastPost, ip, now) then
      PostStep(TooSoon(Wait(now - StampOrZero(ipLastPost, ip))), ipLastPost, None)
    else if CleanText(body) == [] then PostStep(EmptyMessage, ipLastPost, None)
    else PostStep(Posted, ipLastPost[ip := now], Some(NewMessage(body, id, now)))
  }

  /** A post 0 to 8 seconds after the address's last one gets a hint of 1 to 8 seconds and stores nothing. */
  lemma DecideCooldown(ipLastPost: map<string, int>, req: Request, now: int, id: string)
    requires 0 <= now - StampOrZero(ipLastPost, ClientIp(req)) < CooldownMs
    ensures Decide(ipLastPost, req, now, id).reply.TooSoon?
    ensures 1 <= Decide(ipLastPost, req, now, id).reply.wait <= 8
    ensures Decide(ipLastPost, req, now, id).stored.None?
  {
    WaitBounds(now - StampOrZero(ipLastPost, ClientIp(req)));
  }

  /** Outside the cooldown a blank text is refused with "Message vide" and nothing is stored. */
  lemma DecideEmpty(ipLastPost: map<string, int>, req: Request, now: int, id: string)
    requires !InCooldown(ipLastPost, ClientIp(req), now)
    requires AllSpace(StrOrEmpty(Get(BodyOr(req.body, Obj(map[])), "text")))
    ensures Decide(ipLastPost, req, now, id) == PostStep(EmptyMessage, ipLastPost, None)
  {
    CleanTextEmptyIff(BodyOr(req.body, Obj(map[])));
  }

  /** A rejected post leaves the per-address memory as it was: it starts no cooldown. */
  lemma DecideRejectedKeepsMemory(ipLastPost: map<string, int>, req: Request, now: int, id: string)
    ensures Decide(ipLastPost, req, now, id).stored.None? <==> Decide(ipLastPost, req, now, id).reply != Posted
    ensures Decide(ipLastPost, req, now, id).stored.None? ==> Decide(ipLastPost, req, now, id).ipLastPost == ipLastPost
  {
  }

  /**
   * An accepted post stores a message with the cleaned name, "Anonyme" when it is empty,
   * so never empty and at most 24 characters; the cleaned, non-empty text of at most 240
   * characters; the time `now`; and it starts the address's cooldown.
   */
  lemma DecidePosted(ipLastPost: map<string, int>, req: Request, now: int, id: string)
    requires Decide(ipLastPost, req, now, id).reply == Posted
    ensures Decide(ipLastPost, req, now, id).stored.Some?
    ensures var m := Decide(ipLastPost, req, now, id).stored.value;
      var body := BodyOr(req.body, Obj(map[]));
      m.id == id && m.createdAt == now && m.name == ShownName(CleanName(body))
      && m.text == CleanText(body) && m.name != [] && |m.name| <= 24
      && m.text != [] && |m.text| <= 240
    ensures Decide(ipLastPost, req, now, id).ipLastPost == ipLastPost[ClientIp(req) := now]
    ensures InCooldown(Decide(ipLastPost, req, now, id).ipLastPost, ClientIp(req), now)
  {
  }

  /** The route module: its per-address memory and the wall it writes to. */
  class WallRoute {
    var ipLastPost: map<string, int>
    const store: MessageStore

    constructor (store: MessageStore)
      ensures ipLastPost == map[] && this.store == store
    {
      ipLastPost := map[];
      this.store := store;
    }

    /**
     * `POST`: the reply and the new memory are what `Decide` says; an accepted message
     * is stored first and only then is the address stamped.
     */
    method Post(req: Request, now: int, id: string) returns (reply: PostReply)
      modifies this, store
      ensures var step := Decide(old(ipLastPost), req, now, id);
        reply == step.reply && ipLastPost == step.ipLastPost
        && (step.stored.None? ==> unchanged(store))
        && (step.stored.Some? ==> store.file == AfterAdd(old(store.file), step.stored.value))
    {
      var step := Decide(ipLastPost, req, now, id);
      if step.stored.Some? {
        store.Add(step.stored.value);
      }
      ipLastPost := step.ipLastPost;
      reply := step.reply;
    }

    /** `GET`: the wall as read. */
    method List() returns (messages: seq<Value>)
      modifies store
      ensures messages == ReadList(old(store.file))
      ensures store.file == Ensured(old(store.file))
    {
      messages := store.Read();
    }
  }
}
