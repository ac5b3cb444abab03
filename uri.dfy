/** `parse_uri`: the `"host:port"` strings returned by the node-list
    function, turned into addresses. */
module Uri {
  import opened Values

  /** The fields joined back with `sep` between them: the inverse of Split. */
  function Join(fields: seq<string>, sep: char): string
    requires |fields| >= 1
  {
    if |fields| == 1 then fields[0] else fields[0] + [sep] + Join(fields[1..], sep)
  }

  /** Python's `s.split(sep)`: the maximal `sep`-free pieces of `s`, in order. */
  function Split(s: string, sep: char): (fields: seq<string>)
    ensures |fields| >= 1
    ensures (sep in s) <==> |fields| >= 2
    ensures forall i :: 0 <= i < |fields| ==> sep !in fields[i]
    ensures Join(fields, sep) == s
  {
    if s == [] then [[]]
    else
      var rest := Split(s[1..], sep);
      if s[0] == sep then
        assert s == [sep] + s[1..];
        [[]] + rest
      else
        var fields := [[s[0]] + rest[0]] + rest[1..];
        assert fields[1..] == rest[1..];
        assert s == [s[0]] + s[1..];
        fields
  }

  /** A field without the separator splits to itself. */
  lemma SplitNoSep(s: string, sep: char)
    requires sep !in s
    ensures Split(s, sep) == [s]
  {
  }

  /** Splitting after a first `sep`-free field. */
  lemma {:induction false} SplitAfterField(a: string, t: string, sep: char)
    requires sep !in a
    ensures Split(a + [sep] + t, sep) == [a] + Split(t, sep)
  {
    if a == [] {
      assert a + [sep] + t == [sep] + t;
      assert ([sep] + t)[1..] == t;
    } else {
      assert (a + [sep] + t)[1..] == a[1..] + [sep] + t;
      SplitAfterField(a[1..], t, sep);
      assert [a[0]] + a[1..] == a;
    }
  }

  predicate IsDigit(c: char) { '0' <= c <= '9' }

  predicate AllDigits(s: string) { forall i :: 0 <= i < |s| ==> IsDigit(s[i]) }

  /** The value of a string of decimal digits, most significant first. */
  function DigitsValue(s: string): nat
    requires AllDigits(s)
  {
    if s == [] then 0 else 10 * DigitsValue(s[..|s| - 1]) + (s[|s| - 1] as int - '0' as int)
  }

  /** Python's `int(s)` on an optional sign followed by ASCII digits;
      `None` stands for the ValueError it raises otherwise. */
  function ParseInt(s: string): (r: Option<int>)
    ensures r.Some? ==> s != [] && ':' !in s
  {
    if s != [] && (s[0] == '-' || s[0] == '+') then
      var digits := s[1..];
      if digits != [] && AllDigits(digits) then
        var n: int := DigitsValue(digits);
        Some(if s[0] == '-' then -n else n)
      else None
    else if s != [] && AllDigits(s) then Some(DigitsValue(s))
    else None
  }

  /** The decimal digits of `n`, as Python's `str` writes them. */
  function NatToDecimal(n: nat): (s: string)
    ensures s != [] && AllDigits(s) && DigitsValue(s) == n
  {
    if n < 10 then
      [('0' as int + n) as char]
    else
      var s := NatToDecimal(n / 10) + [('0' as int + n % 10) as char];
      assert s[..|s| - 1] == NatToDecimal(n / 10);
      s
  }

  /** Python's `str(n)` for an integer. */
  function IntToDecimal(n: int): string
  {
    if n < 0 then ['-'] + NatToDecimal(-n) else NatToDecimal(n)
  }

  /** `int(str(n)) == n`, and `str(n)` never holds a colon. */
  lemma DecimalRoundTrip(n: int)
    ensures ParseInt(IntToDecimal(n)) == Some(n)
    ensures ':' !in IntToDecimal(n)
  {
    var d := NatToDecimal(if n < 0 then -n else n);
    if n < 0 {
      assert (['-'] + d)[1..] == d;
    }
    assert forall i :: 0 <= i < |d| ==> d[i] != ':' by {
      assert AllDigits(d);
    }
  }

  /** `parse_uri`: `host` is the text before the first colon, `port` the
      integer between the first and the second; `None` when there is no
      colon, the port text is not an integer, the host is empty or the port is 0. */
  function ParseUri(uri: string): (r: Option<Addr>)
    ensures r.Some? ==> r.value.host != [] && r.value.port != 0 && ':' !in r.value.host
    ensures r.Some? ==> r.value.host + [':'] <= uri
  {
    if uri == [] || ':' !in uri then None
    else
      var fields := Split(uri, ':');
      var host := fields[0];
      assert Join(fields, ':') == host + [':'] + Join(fields[1..], ':');
      match ParseInt(fields[1])
      case None => None
      case Some(port) => if host != [] && port != 0 then Some(Addr(host, port)) else None
  }

  /** `list(parse_uri(i) for i in data)`: one entry per string, in order. */
  function ParseAll(uris: seq<string>): (addrs: seq<Option<Addr>>)
    ensures |addrs| == |uris|
    ensures forall i :: 0 <= i < |uris| ==> addrs[i] == ParseUri(uris[i])
  {
    seq(|uris|, i requires 0 <= i < |uris| => ParseUri(uris[i]))
  }

  /** A string without a colon (the empty string among them) is rejected. */
  lemma ParseUriNoColon(uri: string)
    requires ':' !in uri
    ensures ParseUri(uri) == None
  {
  }

  /** Every string with a colon reads as `host:portText` followed by nothing
      or by a further colon; this is what `parse_uri` makes of it. */
  lemma ParseUriFields(host: string, portText: string, tail: string)
    requires ':' !in host && ':' !in portText
    requires tail == [] || tail[0] == ':'
    ensures ParseUri(host + [':'] + portText + tail) ==
      match ParseInt(portText)
      case Some(port) => if host != [] && port != 0 then Some(Addr(host, port)) else None
      case None => None
  {
    var uri := host + [':'] + portText + tail;
    assert uri == host + [':'] + (portText + tail);
    SplitAfterField(host, portText + tail, ':');
    assert uri[|host|] == ':';
    if tail == [] {
      assert portText + tail == portText;
      SplitNoSep(portText, ':');
    } else {
      assert portText + tail == portText + [':'] + tail[1..];
      SplitAfterField(portText, tail[1..], ':');
    }
  }

  /** Each string with a colon has exactly such a reading. */
  lemma ColonFields(uri: string) returns (host: string, portText: string, tail: string)
    requires ':' in uri
    ensures ':' !in host && ':' !in portText && (tail == [] || tail[0] == ':')
    ensures uri == host + [':'] + portText + tail
  {
    var fields := Split(uri, ':');
    host, portText := fields[0], fields[1];
    tail := if |fields| == 2 then [] else [':'] + Join(fields[2..], ':');
    assert Join(fields, ':') == host + [':'] + Join(fields[1..], ':');
    if |fields| > 2 {
      assert fields[1..][1..] == fields[2..];
    }
  }

  /** Round trip: `parse_uri(host + ':' + str(port))` gives back the address
      for a non-empty, colon-free host and a non-zero port. */
  lemma ParseUriRoundTrip(host: string, port: int)
    requires host != [] && ':' !in host && port != 0
    ensures ParseUri(host + [':'] + IntToDecimal(port)) == Some(Addr(host, port))
  {
    DecimalRoundTrip(port);
    ParseUriFields(host, IntToDecimal(port), []);
    assert host + [':'] + IntToDecimal(port) + [] == host + [':'] + IntToDecimal(port);
  }

  /** Fields after the second colon are ignored. */
  lemma ParseUriIgnoresTail(host: string, portText: string, more: string)
    requires ':' !in host && ':' !in portText
    ensures ParseUri(host + [':'] + portText + [':'] + more) == ParseUri(host + [':'] + portText)
  {
    ParseUriFields(host, portText, [':'] + more);
    ParseUriFields(host, portText, []);
    assert host + [':'] + portText + [':'] + more == host + [':'] + portText + ([':'] + more);
    assert host + [':'] + portText + [] == host + [':'] + portText;
  }
}
