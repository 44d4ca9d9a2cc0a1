/**
 * The request middleware of proxy.ts: a request whose user-agent looks like a crawler is
 * refused; every other request goes on with a header asking search engines not to index.
 */
module Proxy {
  import opened Wrappers
  import opened Strings

  const BotPatterns: seq<string> := [
    "bot", "crawl", "spider", "slurp", "baiduspider", "yandex",
    "facebookexternalhit", "whatsapp", "telegram", "discord",
    "lighthouse", "gtmetrix", "pagespeed", "pingdom"
  ]

  const RobotsTag := "noindex, nofollow, noarchive"

  datatype Response =
    | Refused(status: nat, body: string)
    | Next(robotsTag: string)

  /** `botPatterns.some(...)` from position `from` on. */
  function MatchesFrom(lowered: string, from: nat): (r: bool)
    requires from <= |BotPatterns|
    ensures r <==> exists i :: from <= i < |BotPatterns| && Contains(lowered, BotPatterns[i])
    decreases |BotPatterns| - from
  {
    if from == |BotPatterns| then false
    else Contains(lowered, BotPatterns[from]) || MatchesFrom(lowered, from + 1)
  }

  /** The lower-cased user-agent contains one of the patterns. */
  function IsBot(userAgent: string): (b: bool)
    ensures b <==> exists i :: 0 <= i < |BotPatterns| && Contains(ToLower(userAgent), BotPatterns[i])
  {
    MatchesFrom(ToLower(userAgent), 0)
  }

  /** middleware: a missing user-agent header counts as the empty string. */
  function Middleware(userAgent: Option<string>): (r: Response)
    ensures r.Refused? <==> IsBot(userAgent.GetOr(""))
    ensures r.Refused? ==> r.status == 403 && r.body == "Access Denied"
    ensures r.Next? ==> r.robotsTag == RobotsTag
  {
    if IsBot(userAgent.GetOr("")) then Refused(403, "Access Denied") else Next(RobotsTag)
  }

  /** Matching ignores the case of the user-agent. */
  lemma IsBotIgnoresCase(userAgent: string)
    ensures IsBot(ToLower(userAgent)) == IsBot(userAgent)
  {
    ToLowerIdempotent(userAgent);
  }

  /** No pattern is empty, so a request without a user-agent is let through. */
  lemma MissingAgentPasses()
    ensures Middleware(None) == Next(RobotsTag)
    ensures Middleware(Some("")) == Next(RobotsTag)
  {
    assert ToLower("") == "";
    forall i | 0 <= i < |BotPatterns|
      ensures !Contains("", BotPatterns[i])
    {
      assert |BotPatterns[i]| > 0;
    }
  }

  /** "GoogleBot" is refused: lower-cased it contains "bot". */
  lemma GoogleBotRefused()
    ensures Middleware(Some("GoogleBot")) == Refused(403, "Access Denied")
  {
    var lowered := ToLower("GoogleBot");
    assert lowered[6] == LowerChar('B') == 'b';
    assert lowered[7] == 'o' && lowered[8] == 't';
    assert lowered[6..9] == "bot";
    assert OccursAt(lowered, BotPatterns[0], 6);
  }
}
