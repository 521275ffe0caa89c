/**
 * The confirmation link sent after a successful publish:
 * "https://t.me/" + channel name without one leading "@" + "/" + the
 * published message's ID in decimal (main.go:181). A parser for such links
 * serves as the inverse that pins the format down.
 */
module Link {
  import opened Wrappers

  const TelegramBase: string := "https://t.me/"

  predicate IsPrefix(prefix: string, s: string) {
    |prefix| <= |s| && s[..|prefix|] == prefix
  }

  /** strings.TrimPrefix: drop prefix once if s starts with it. */
  function TrimPrefix(s: string, prefix: string): (r: string)
    ensures IsPrefix(prefix, s) ==> s == prefix + r
    ensures !IsPrefix(prefix, s) ==> r == s
  {
    if IsPrefix(prefix, s) then
      assert s == s[..|prefix|] + s[|prefix|..];
      s[|prefix|..]
    else s
  }

  /** Only one leading "@" is removed from the channel name. */
  lemma TrimAtRemovesOne(name: string)
    ensures TrimPrefix("@" + name, "@") == name
    ensures !IsPrefix("@", name) ==> TrimPrefix(name, "@") == name
  {
    assert ("@" + name)[..1] == "@";
  }

  predicate IsDigit(c: char) {
    '0' <= c <= '9'
  }

  predicate AllDigits(s: string) {
    forall k :: 0 <= k < |s| ==> IsDigit(s[k])
  }

  function DigitChar(d: int): (c: char)
    requires 0 <= d < 10
    ensures IsDigit(c) && c as int - '0' as int == d
  {
    ('0' as int + d) as char
  }

  /** The number a string of decimal digits denotes. */
  function DecimalValue(s: string): nat
    requires AllDigits(s)
  {
    if s == [] then 0
    else 10 * DecimalValue(s[..|s| - 1]) + (s[|s| - 1] as int - '0' as int)
  }

  /** Decimal digits of n, most significant first, without leading zeros. */
  function NatToDecimal(n: nat): (r: string)
    ensures r != [] && AllDigits(r)
    ensures |r| > 1 ==> r[0] != '0'
    ensures DecimalValue(r) == n
  {
    if n < 10 then [DigitChar(n)]
    else
      var high := NatToDecimal(n / 10);
      var r := high + [DigitChar(n % 10)];
      assert r[..|r| - 1] == high;
      r
  }

  /** d is the decimal form of m that strconv writes: digits only, no leading zero. */
  predicate CanonicalDecimal(d: string, m: nat) {
    d != [] && AllDigits(d) && (|d| > 1 ==> d[0] != '0') && DecimalValue(d) == m
  }

  /** strconv.Itoa: decimal form with a leading '-' for negatives. */
  function Itoa(n: int): (r: string)
    ensures r != [] && '/' !in r
    ensures r[0] == '-' <==> n < 0
    ensures CanonicalDecimal(if n < 0 then r[1..] else r, if n < 0 then -n else n)
  {
    if n < 0 then
      var r := "-" + NatToDecimal(-n);
      assert r[1..] == NatToDecimal(-n);
      r
    else NatToDecimal(n)
  }

  /** Reads back what Itoa writes: an optional '-' and a run of digits. */
  function ParseInt(s: string): (r: Option<int>)
    ensures r.Some? ==> s != []
  {
    if |s| > 1 && s[0] == '-' && AllDigits(s[1..]) then Some(0 - DecimalValue(s[1..]) as int)
    else if s != [] && AllDigits(s) then Some(DecimalValue(s))
    else None
  }

  lemma ParseIntItoa(n: int)
    ensures ParseInt(Itoa(n)) == Some(n)
  {
    if n < 0 {
      assert Itoa(n)[1..] == NatToDecimal(-n);
    }
  }

  /** The deep link to a message published in the channel (main.go:181). */
  function ChannelLink(channelName: string, messageId: int): (link: string)
    ensures IsPrefix(TelegramBase, link)
  {
    TelegramBase + TrimPrefix(channelName, "@") + "/" + Itoa(messageId)
  }

  /** Index of the last '/' in s, if any. */
  function LastSlash(s: string): (r: Option<nat>)
    ensures r.Some? ==> r.value < |s| && s[r.value] == '/'
    ensures r.Some? ==> '/' !in s[r.value + 1..]
    ensures r.None? ==> '/' !in s
  {
    if s == [] then None
    else if s[|s| - 1] == '/' then Some(|s| - 1)
    else
      var r := LastSlash(s[..|s| - 1]);
      assert s == s[..|s| - 1] + [s[|s| - 1]];
      if r.Some? then
        assert s[r.value + 1..] == s[..|s| - 1][r.value + 1..] + [s[|s| - 1]];
        r
      else r
  }

  /** Splits a channel link back into the channel part and the message ID. */
  function ParseLink(link: string): (r: Option<(string, int)>)
    ensures r.Some? ==> IsPrefix(TelegramBase, link)
  {
    if !IsPrefix(TelegramBase, link) then None
    else
      var rest := link[|TelegramBase|..];
      match LastSlash(rest)
      case None => None
      case Some(k) =>
        match ParseInt(rest[k + 1..])
        case None => None
        case Some(id) => Some((rest[..k], id))
  }

  lemma {:induction false} LastSlashBeforeSuffix(a: string, b: string)
    requires '/' !in b
    ensures LastSlash(a + "/" + b) == Some(|a|)
  {
    var s := a + "/" + b;
    if b != [] {
      assert s[|s| - 1] == b[|b| - 1];
      assert s[..|s| - 1] == a + "/" + b[..|b| - 1];
      LastSlashBeforeSuffix(a, b[..|b| - 1]);
    }
  }

  /** A link with a digit suffix free of '/' splits at the slash before that suffix. */
  lemma ParseLinkOf(name: string, digits: string, id: int)
    requires '/' !in digits && ParseInt(digits) == Some(id)
    ensures ParseLink(TelegramBase + (name + "/" + digits)) == Some((name, id))
  {
    var rest := name + "/" + digits;
    var link := TelegramBase + rest;
    assert link[..|TelegramBase|] == TelegramBase;
    assert link[|TelegramBase|..] == rest;
    LastSlashBeforeSuffix(name, digits);
    assert rest[|name| + 1..] == digits && rest[..|name|] == name;
  }

  /**
   * Every link ChannelLink builds parses back to the trimmed channel name
   * and the message ID, whatever the channel name contains.
   */
  lemma ParseChannelLink(channelName: string, messageId: int)
    ensures ParseLink(ChannelLink(channelName, messageId)) == Some((TrimPrefix(channelName, "@"), messageId))
  {
    var name := TrimPrefix(channelName, "@");
    var digits := Itoa(messageId);
    ParseIntItoa(messageId);
    assert ChannelLink(channelName, messageId) == TelegramBase + (name + "/" + digits);
    ParseLinkOf(name, digits, messageId);
  }

  /** Links to two different messages of one channel differ. */
  lemma ChannelLinkInjective(channelName: string, id1: int, id2: int)
    requires ChannelLink(channelName, id1) == ChannelLink(channelName, id2)
    ensures id1 == id2
  {
    ParseChannelLink(channelName, id1);
    ParseChannelLink(channelName, id2);
  }

  /** The link for channel "@cryout" and message 7. */
  lemma SampleLink()
    ensures ChannelLink("@cryout", 7) == "https://t.me/cryout/7"
  {
    TrimAtRemovesOne("cryout");
    assert "@" + "cryout" == "@cryout";
    assert Itoa(7) == "7";
  }
}
