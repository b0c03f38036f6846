/**
 * The message wall page (app/messages/page.tsx): how old each message is said to be,
 * and when the send button is live. The clock is a parameter.
 */
module MessagesPage {
  import opened JsText
  import opened Js
  import opened Arith
  import MessagesRoute

  const JustNow := "\U{00E0} l\U{2019}instant"

  /** `timeAgo(ts)` read at time `now`, both in milliseconds. */
  function TimeAgo(ts: int, now: int): string {
    var s := (now - ts) / 1000;
    if s < 10 then JustNow
    else if s < 60 then "il y a " + NatToDecimal(s) + "s"
    else
      var m := s / 60;
      if m < 60 then "il y a " + NatToDecimal(m) + " min"
      else "il y a " + NatToDecimal(m / 60) + " h"
  }

  /** Less than ten whole seconds, timestamps in the future included, reads as just now. */
  lemma TimeAgoJustNow(ts: int, now: int)
    requires now - ts < 10000
    ensures TimeAgo(ts, now) == JustNow
  {
  }

  /** From ten to fifty-nine whole seconds, the seconds are shown. */
  lemma TimeAgoSeconds(ts: int, now: int, s: nat)
    requires s * 1000 <= now - ts < (s + 1) * 1000 && 10 <= s < 60
    ensures TimeAgo(ts, now) == "il y a " + NatToDecimal(s) + "s"
  {
    DivModUnique(now - ts, 1000, s, now - ts - s * 1000);
  }

  /** From one minute up to an hour, the whole minutes are shown, from 1 to 59. */
  lemma {:induction false} TimeAgoMinutes(ts: int, now: int)
    requires 60000 <= now - ts < 3600000
    ensures var m := ((now - ts) / 1000) / 60;
      && 1 <= m < 60
      && m * 60000 <= now - ts < (m + 1) * 60000
      && TimeAgo(ts, now) == "il y a " + NatToDecimal(m) + " min"
  {
    var x := now - ts;
    var s := x / 1000;
    var m := s / 60;
    assert x == s * 1000 + x % 1000;
    assert s == m * 60 + s % 60;
  }

  /** From an hour on, the whole hours are shown: the minutes' floor by 60 is the seconds' floor by 3600. */
  lemma {:induction false} TimeAgoHours(ts: int, now: int)
    requires now - ts >= 3600000
    ensures var h := ((now - ts) / 1000) / 3600;
      && h >= 1
      && h * 3600000 <= now - ts < (h + 1) * 3600000
      && TimeAgo(ts, now) == "il y a " + NatToDecimal(h) + " h"
  {
    var x := now - ts;
    var s := x / 1000;
    var m := s / 60;
    var h := m / 60;
    assert x == s * 1000 + x % 1000;
    assert s == m * 60 + s % 60;
    assert m == h * 60 + m % 60;
    DivModUnique(s, 3600, h, (m % 60) * 60 + s % 60);
  }

  /** `text.trim().length > 0 && !loading` */
  predicate CanSend(text: string, loading: bool) {
    |Trim(text)| > 0 && !loading
  }

  /** Nothing is sent while a send is in flight, nor when the text is blank. */
  lemma CannotSendBlank(text: string, loading: bool)
    requires loading || AllSpace(text)
    ensures !CanSend(text, loading)
  {
    TrimEmptyIff(text);
  }

  /**
   * The button is live, when no send is in flight, exactly when the server would keep
   * a non-empty text from that input; so the page never offers a send the server
   * refuses for an empty message.
   */
  lemma CanSendAgreesWithServer(text: string)
    ensures CanSend(text, false) <==> MessagesRoute.CleanText(Obj(map["text" := Str(text)])) != []
  {
    var body := Obj(map["text" := Str(text)]);
    assert Get(body, "text") == Str(text);
    TrimEmptyIff(text);
    MessagesRoute.CleanTextEmptyIff(body);
  }
}
