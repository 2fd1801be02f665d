/**
 * The integration-test configuration of frontend/tests/config.ts: the
 * default response wait, test identities, and the WebSocket URL derived
 * from the backend's base URL.
 */
module Config {
  import opened Urls

  /** The default time a test waits for a response, in milliseconds. */
  const ResponseTimeout: nat := 2000

  datatype Identity = Identity(token: string, name: string)

  /** The decimal text of a number, as a template literal prints Date.now(). */
  function DecimalString(n: nat): (s: string)
    ensures |s| >= 1 && forall i :: 0 <= i < |s| ==> '0' <= s[i] <= '9'
    ensures n >= 10 ==> s[0] != '0'
  {
    if n < 10 then [DigitChar(n)] else DecimalString(n / 10) + [DigitChar(n % 10)]
  }

  function DigitChar(d: nat): (c: char)
    requires d < 10
    ensures '0' <= c <= '9'
  {
    "0123456789"[d]
  }

  /** Reads decimal text back as a number. */
  function DecimalValue(s: string): nat
    requires forall i :: 0 <= i < |s| ==> '0' <= s[i] <= '9'
  {
    if s == [] then 0 else DecimalValue(s[..|s| - 1]) * 10 + ((s[|s| - 1] as int) - ('0' as int))
  }

  lemma DigitCharValue(d: nat)
    requires d < 10
    ensures (DigitChar(d) as int) - ('0' as int) == d
  {
  }

  /** Decimal text round-trips: reading back what was printed gives the number. */
  lemma {:induction false} DecimalRoundTrip(n: nat)
    ensures DecimalValue(DecimalString(n)) == n
  {
    var s := DecimalString(n);
    if n < 10 {
      DigitCharValue(n);
      assert s[..0] == [];
    } else {
      DecimalRoundTrip(n / 10);
      DigitCharValue(n % 10);
      assert s[..|s| - 1] == DecimalString(n / 10);
    }
  }

  /** createIdentity: a test identity whose token carries the suffix and the clock reading `now`. */
  function CreateIdentity(suffix: string, now: nat): (id: Identity)
    ensures id.name == "tester-" + suffix
    ensures id.token == "integration-" + suffix + "-" + DecimalString(now)
  {
    Identity("integration-" + suffix + "-" + DecimalString(now), "tester-" + suffix)
  }

  /** Two identities for the same suffix made at different times have different tokens. */
  lemma TokensDiffer(suffix: string, t1: nat, t2: nat)
    requires t1 != t2
    ensures CreateIdentity(suffix, t1).token != CreateIdentity(suffix, t2).token
  {
    var prefix := "integration-" + suffix + "-";
    var a, b := DecimalString(t1), DecimalString(t2);
    DecimalRoundTrip(t1);
    DecimalRoundTrip(t2);
    assert a == (prefix + a)[|prefix|..];
    assert b == (prefix + b)[|prefix|..];
  }

  /** Different suffixes give different names. */
  lemma NamesDiffer(s1: string, s2: string, t1: nat, t2: nat)
    requires s1 != s2
    ensures CreateIdentity(s1, t1).name != CreateIdentity(s2, t2).name
  {
    var prefix := "tester-";
    assert s1 == (prefix + s1)[|prefix|..];
    assert s2 == (prefix + s2)[|prefix|..];
  }

  /**
   * makeWsUrl: the base URL's object with its protocol mapped to the
   * WebSocket scheme, the path forced to /ws, and query and fragment cleared.
   */
  method MakeWsUrl(baseUrl: Url) returns (r: Url)
    ensures r.protocol == WsScheme(baseUrl.protocol)
    ensures r.protocol == "wss:" <==> baseUrl.protocol == "https:"
    ensures r.pathname == "/ws" && r.search == "" && r.hash == ""
    ensures r.hostname == baseUrl.hostname && r.port == baseUrl.port
  {
    var url := new UrlObject(baseUrl);
    url.protocol := WsScheme(url.protocol);
    url.pathname := "/ws";
    url.search := "";
    url.hash := "";
    r := url.Value();
  }
}
