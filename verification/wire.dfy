/** The wire vocabulary between the MQL5 service and the adapter, and the bar-spec codec. */
module Wire {
  import opened Prelude

  datatype WireTick = WireTick(timeMsc: int, bid: real, ask: real, last: real, volume: int, flags: int)

  datatype WireBar = WireBar(symbol: string, timeframe: string, time: int,
                             open: real, high: real, low: real, close: real,
                             tickVolume: int, realVolume: int, spread: int)

  datatype Inbound =
    | Hello(session: string, symbols: seq<string>, bars: seq<string>)
    | TickBatch(symbol: string, cursor: int, ticks: seq<WireTick>)
    | BarMessage(bar: WireBar)
    | Heartbeat(tsMsc: int)
    | Pong
    | ErrorMessage(code: string, message: string)

  datatype Command =
    | Subscribe(symbols: seq<string>)
    | Unsubscribe(symbols: seq<string>)
    | SubscribeBars(symbols: seq<string>, timeframe: string)
    | UnsubscribeBars(symbols: seq<string>, timeframe: string)

  /** A bar subscription: (symbol, upper-case timeframe). */
  type BarKey = (string, string)

  function UpperChar(c: char): char {
    if 'a' <= c <= 'z' then (c as int - 32) as char else c
  }

  function Upper(s: string): string {
    seq(|s|, i requires 0 <= i < |s| => UpperChar(s[i]))
  }

  /** Equal but for the case of ASCII letters. */
  predicate SameLetters(a: string, b: string) {
    && |a| == |b|
    && forall i | 0 <= i < |a| ::
         || a[i] == b[i]
         || ('a' <= a[i] <= 'z' && a[i] as int - b[i] as int == 32)
         || ('a' <= b[i] <= 'z' && b[i] as int - a[i] as int == 32)
  }

  /** Upper-casing gives the one spelling of a text that has no lower-case letter. */
  lemma UpperExactly(s: string, t: string)
    ensures Upper(s) == t <==> SameLetters(s, t) && forall c | c in t :: !('a' <= c <= 'z')
  {
    if SameLetters(s, t) && forall c | c in t :: !('a' <= c <= 'z') {
      forall i | 0 <= i < |s| ensures UpperChar(s[i]) == t[i] {
        assert t[i] in t;
      }
    }
  }

  predicate Blank(c: char) {
    var n := c as int;
    9 <= n <= 13 || 28 <= n <= 32 || n == 133 || n == 160
  }

  predicate AllBlank(s: string) {
    forall c | c in s :: Blank(c)
  }

  predicate Trimmed(s: string) {
    s != [] ==> !Blank(s[0]) && !Blank(s[|s| - 1])
  }

  function StripLeft(s: string): string {
    if s != [] && Blank(s[0]) then StripLeft(s[1..]) else s
  }

  function StripRight(s: string): string {
    if s != [] && Blank(s[|s| - 1]) then StripRight(s[..|s| - 1]) else s
  }

  function Strip(s: string): string {
    StripRight(StripLeft(s))
  }

  lemma {:induction false} StripLeftSplits(s: string) returns (pre: string)
    ensures s == pre + StripLeft(s) && AllBlank(pre)
    ensures StripLeft(s) != [] ==> !Blank(StripLeft(s)[0])
  {
    if s != [] && Blank(s[0]) {
      var p := StripLeftSplits(s[1..]);
      pre := [s[0]] + p;
      assert s == [s[0]] + s[1..];
    } else {
      pre := [];
    }
  }

  lemma {:induction false} StripRightSplits(s: string) returns (post: string)
    ensures s == StripRight(s) + post && AllBlank(post)
    ensures StripRight(s) != [] ==> !Blank(StripRight(s)[|StripRight(s)| - 1])
  {
    if s != [] && Blank(s[|s| - 1]) {
      var p := StripRightSplits(s[..|s| - 1]);
      post := p + [s[|s| - 1]];
      assert s == s[..|s| - 1] + [s[|s| - 1]];
    } else {
      post := [];
    }
  }

  /** Stripping removes only a blank prefix and a blank suffix, and leaves a trimmed core. */
  lemma StripSplits(s: string) returns (pre: string, post: string)
    ensures s == pre + Strip(s) + post
    ensures AllBlank(pre) && AllBlank(post) && Trimmed(Strip(s))
  {
    pre := StripLeftSplits(s);
    post := StripRightSplits(StripLeft(s));
    assert StripLeft(s) == Strip(s) + post;
    if Strip(s) != [] {
      assert StripLeft(s)[0] == Strip(s)[0];
    }
  }

  lemma StripTrimmed(s: string)
    requires Trimmed(s)
    ensures Strip(s) == s
  {
  }

  /** The position of the first `c` in `s`, or `|s|` when there is none. */
  function Find(s: string, c: char): (r: nat)
    ensures r <= |s|
    ensures c !in s[..r]
    ensures r < |s| ==> s[r] == c
    ensures r == |s| <==> c !in s
  {
    if s == [] || s[0] == c then 0
    else
      var r := 1 + Find(s[1..], c);
      assert s[..r] == [s[0]] + s[1..][..r - 1];
      r
  }

  lemma FindUnique(s: string, c: char, i: nat)
    requires i < |s| && s[i] == c && c !in s[..i]
    ensures Find(s, c) == i
  {
    var r := Find(s, c);
  }

  /** `SYMBOL:TF`, split at the first colon, both parts stripped and non-empty. */
  function ParseBarSpec(spec: string): Option<BarKey> {
    var i := Find(spec, ':');
    if i == |spec| then None
    else
      var symbol, timeframe := Strip(spec[..i]), Strip(spec[i + 1..]);
      if symbol == [] || timeframe == [] then None else Some((symbol, timeframe))
  }

  /** Whatever parses has a colon-free, non-empty, trimmed symbol and a non-empty, trimmed timeframe. */
  lemma ParseBarSpecSound(spec: string)
    requires ParseBarSpec(spec).Some?
    ensures var (symbol, timeframe) := ParseBarSpec(spec).value;
            && symbol != [] && Trimmed(symbol) && ':' !in symbol
            && timeframe != [] && Trimmed(timeframe)
  {
    var i := Find(spec, ':');
    var left, right := spec[..i], spec[i + 1..];
    var a, b := StripSplits(left);
    var c, d := StripSplits(right);
    assert forall x | x in Strip(left) :: x in left;
  }

  /** The blanks by their codes: tab to carriage return, the separators, space, next line, no-break space. */
  predicate Padding(s: string) {
    forall c | c in s :: c as int in {9, 10, 11, 12, 13, 28, 29, 30, 31, 32, 133, 160}
  }

  lemma PaddingIsBlank(s: string)
    ensures Padding(s) <==> AllBlank(s)
  {
  }

  lemma {:induction false} StripLeftPadding(pre: string, core: string)
    requires AllBlank(pre)
    ensures StripLeft(pre + core) == StripLeft(core)
  {
    if pre == "" {
      assert pre + core == core;
    } else {
      assert (pre + core)[0] == pre[0] && (pre + core)[1..] == pre[1..] + core;
      StripLeftPadding(pre[1..], core);
    }
  }

  lemma {:induction false} StripRightPadding(core: string, post: string)
    requires AllBlank(post)
    ensures StripRight(core + post) == StripRight(core)
  {
    if post == "" {
      assert core + post == core;
    } else {
      var n := |post| - 1;
      assert (core + post)[|core| + n] == post[n] && (core + post)[..|core| + n] == core + post[..n];
      StripRightPadding(core, post[..n]);
    }
  }

  /** Stripping leaves nothing exactly of padding. */
  lemma StripsToNothing(s: string)
    ensures Strip(s) == "" <==> Padding(s)
  {
    PaddingIsBlank(s);
    var pre, post := StripSplits(s);
    if Padding(s) {
      StripLeftPadding(s, "");
      assert s + "" == s;
    }
  }

  /** Stripping takes off padding and stops at the first other character. */
  lemma StripPadded(pre: string, core: string, post: string)
    requires Padding(pre) && Padding(post)
    requires core != "" && !Padding(core[..1]) && !Padding(core[|core| - 1..])
    ensures Strip(pre + core + post) == core
  {
    PaddingIsBlank(pre);
    PaddingIsBlank(post);
    PaddingIsBlank(core[..1]);
    PaddingIsBlank(core[|core| - 1..]);
    assert pre + core + post == pre + (core + post);
    StripLeftPadding(pre, core + post);
    assert (core + post)[0] == core[0];
    StripRightPadding(core, post);
  }

  /** Which specs are malformed: those without a colon, and those with only padding before or after the first. */
  lemma MalformedExactly(spec: string)
    ensures ':' !in spec ==> ParseBarSpec(spec) == None
    ensures ':' in spec ==>
              var i := Find(spec, ':');
              && spec[i] == ':' && ':' !in spec[..i]
              && (ParseBarSpec(spec) == None <==> Padding(spec[..i]) || Padding(spec[i + 1..]))
  {
    if ':' in spec {
      var i := Find(spec, ':');
      StripsToNothing(spec[..i]);
      StripsToNothing(spec[i + 1..]);
    }
  }

  /** Padding around the parts of a spec is ignored. */
  lemma PaddingIgnored(a: string, symbol: string, b: string, c: string, timeframe: string, d: string)
    requires Padding(a) && Padding(b) && Padding(c) && Padding(d) && ':' !in symbol
    requires symbol != "" && !Padding(symbol[..1]) && !Padding(symbol[|symbol| - 1..])
    requires timeframe != "" && !Padding(timeframe[..1]) && !Padding(timeframe[|timeframe| - 1..])
    ensures ParseBarSpec(a + symbol + b + ":" + (c + timeframe + d)) == Some((symbol, timeframe))
  {
    var left, right := a + symbol + b, c + timeframe + d;
    var spec := left + ":" + right;
    assert ':' !in left;
    assert spec[..|left|] == left && spec[|left|] == ':' && spec[|left| + 1..] == right;
    FindUnique(spec, ':', |left|);
    StripPadded(a, symbol, b);
    StripPadded(c, timeframe, d);
  }

  function FormatBarSpec(key: BarKey): string {
    key.0 + ":" + key.1
  }

  /** The codec round trip, with its exact condition: it fails precisely for a symbol holding a colon. */
  lemma BarSpecRoundTrip(key: BarKey)
    requires key.0 != [] && key.1 != [] && Trimmed(key.0) && Trimmed(key.1)
    ensures ParseBarSpec(key.0 + ":" + key.1) == Some(key) <==> ':' !in key.0
  {
    var spec := FormatBarSpec(key);
    if ':' !in key.0 {
      assert spec[..|key.0|] == key.0 && spec[|key.0|] == ':';
      FindUnique(spec, ':', |key.0|);
      assert spec[|key.0| + 1..] == key.1;
      StripTrimmed(key.0);
      StripTrimmed(key.1);
    } else if ParseBarSpec(spec) == Some(key) {
      ParseBarSpecSound(spec);
    }
  }

  function KeyOfSpec(spec: string): Option<BarKey> {
    match ParseBarSpec(spec)
    case None => None
    case Some(p) => Some((p.0, Upper(p.1)))
  }

  /** The bar keys a hello reports: malformed specs are skipped, timeframes upper-cased. */
  function HelloBars(specs: seq<string>): set<BarKey> {
    set i | 0 <= i < |specs| && KeyOfSpec(specs[i]).Some? :: KeyOfSpec(specs[i]).value
  }

  lemma HelloBarsConcat(a: seq<string>, b: seq<string>)
    ensures HelloBars(a + b) == HelloBars(a) + HelloBars(b)
  {
    var all := a + b;
    forall k ensures k in HelloBars(all) <==> k in HelloBars(a) || k in HelloBars(b) {
      if i :| 0 <= i < |a| && KeyOfSpec(a[i]) == Some(k) {
        assert all[i] == a[i];
      }
      if i :| 0 <= i < |b| && KeyOfSpec(b[i]) == Some(k) {
        assert all[|a| + i] == b[i];
      }
      if i :| 0 <= i < |all| && KeyOfSpec(all[i]) == Some(k) {
        assert i < |a| ==> a[i] == all[i];
        assert i >= |a| ==> b[i - |a|] == all[i];
      }
    }
  }

  /** Each spec of a hello counts by itself: a malformed one is skipped, any other gives its symbol and its
      timeframe in upper case. */
  lemma HelloBarsEach(a: seq<string>, spec: string, b: seq<string>)
    ensures HelloBars(a + [spec] + b) ==
            HelloBars(a) + HelloBars(b) +
            match ParseBarSpec(spec) case None => {} case Some(p) => {(p.0, Upper(p.1))}
  {
    HelloBarsConcat(a + [spec], b);
    HelloBarsConcat(a, [spec]);
    assert KeyOfSpec([spec][0]) == KeyOfSpec(spec);
  }

  /** A key as the service stores it. */
  predicate WellFormedKey(key: BarKey) {
    && key.0 != [] && key.1 != [] && Trimmed(key.0) && Trimmed(key.1)
    && ':' !in key.0 && Upper(key.1) == key.1
  }

  /** A hello listing the service's active keys is read back as exactly those keys. */
  lemma HelloBarsRoundTrip(keys: seq<BarKey>, specs: seq<string>)
    requires forall k | k in keys :: WellFormedKey(k)
    requires |specs| == |keys| && forall i | 0 <= i < |keys| :: specs[i] == FormatBarSpec(keys[i])
    ensures HelloBars(specs) == Elements(keys)
  {
    forall i | 0 <= i < |keys| ensures KeyOfSpec(specs[i]) == Some(keys[i]) {
      assert WellFormedKey(keys[i]);
      BarSpecRoundTrip(keys[i]);
    }
    forall k | k in keys ensures k in HelloBars(specs) {
      var i :| 0 <= i < |keys| && keys[i] == k;
      assert KeyOfSpec(specs[i]).value == k;
    }
  }
}
