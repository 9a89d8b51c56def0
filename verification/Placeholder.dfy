/** Placeholder machine identities derived from BMC addresses
    (internal/bmc/placeholder.go) and the validators around them (internal/bmc/validate.go). */
module Placeholder {
  import opened Basics
  import opened Addresses

  // ---------------------------------------------------------------- dotted decimal

  function Digit(n: nat): char
    requires n < 10
  {
    ('0' as int + n) as char
  }

  function Dec(n: nat): (s: string)
    ensures s != [] && forall k :: 0 <= k < |s| ==> '0' <= s[k] <= '9'
  {
    if n < 10 then [Digit(n)] else Dec(n / 10) + [Digit(n % 10)]
  }

  /** IP.String of an IPv4 address. */
  function Render(a: Addr): string {
    Dec(a[0]) + "." + (Dec(a[1]) + "." + (Dec(a[2]) + "." + Dec(a[3])))
  }

  predicate Free(s: string, c: char) {
    forall k :: 0 <= k < |s| ==> s[k] != c
  }

  // ---------------------------------------------------------------- net.ParseIP

  /** What the IPv6 branch of net.ParseIP followed by To4 yields: the embedded address of
      an IPv4-mapped text, nothing otherwise. */
  type V6 = string -> Option<Addr>

  /** The separator that decides the branch: the first dot or colon. */
  function FirstMark(s: string): Option<char> {
    if s == [] then None
    else if s[0] == '.' || s[0] == ':' then Some(s[0])
    else FirstMark(s[1..])
  }

  predicate IsDigit(c: char) { '0' <= c <= '9' }

  /** The IPv4 scanner: `val` and `digits` describe the field being read, `done` the
      fields already complete. */
  function Scan(s: string, val: nat, digits: nat, done: seq<Byte>): Option<Addr>
    requires |done| <= 3 && val <= 255
  {
    if s == [] then
      if digits > 0 && |done| == 3 then Some(done + [val]) else None
    else if IsDigit(s[0]) then
      var v := 10 * val + (s[0] as int - '0' as int);
      if (digits == 1 && val == 0) || v > 255 then None else Scan(s[1..], v, digits + 1, done)
    else if s[0] == '.' then
      if digits == 0 || |s| == 1 || |done| == 3 then None else Scan(s[1..], 0, 0, done + [val])
    else None
  }

  /** net.ParseIP, then To4. */
  function ParseIP(v6: V6, s: string): Option<Addr> {
    match FirstMark(s)
    case Some(c) => if c == ':' then v6(s) else Scan(s, 0, 0, [])
    case None => None
  }

  /** Reading a decimal field. */
  lemma {:induction false} ScanField(n: Byte, rest: string, done: seq<Byte>)
    requires |done| <= 3
    ensures Scan(Dec(n) + rest, 0, 0, done) == Scan(rest, n, |Dec(n)|, done)
  {
    if n < 10 {
      assert (Dec(n) + rest)[1..] == rest;
    } else {
      var q, d: nat := n / 10, n % 10;
      assert Dec(n) + rest == Dec(q) + ([Digit(d)] + rest);
      ScanField(q, [Digit(d)] + rest, done);
      assert ([Digit(d)] + rest)[1..] == rest;
    }
  }

  lemma ScanDot(rest: string, n: Byte, digits: nat, done: seq<Byte>)
    requires |done| < 3 && digits > 0 && rest != []
    ensures Scan("." + rest, n, digits, done) == Scan(rest, 0, 0, done + [n])
  {
    assert ("." + rest)[1..] == rest;
  }

  lemma ScanPart(n: Byte, rest: string, done: seq<Byte>)
    requires |done| < 3 && rest != []
    ensures Scan(Dec(n) + "." + rest, 0, 0, done) == Scan(rest, 0, 0, done + [n])
  {
    hide Scan, Dec;
    assert Dec(n) + "." + rest == Dec(n) + ("." + rest);
    ScanField(n, "." + rest, done);
    ScanDot(rest, n, |Dec(n)|, done);
  }

  lemma ScanRender(a: Addr)
    ensures Scan(Render(a), 0, 0, []) == Some(a)
  {
    hide Scan, Dec;
    var d := Dec(a[3]);
    var e := Dec(a[2]) + "." + d;
    ScanPart(a[0], Dec(a[1]) + "." + e, []);
    ScanPart(a[1], e, [a[0]]);
    ScanPart(a[2], d, [a[0], a[1]]);
    assert d + "" == d && [] + [a[0]] == [a[0]] && [a[0]] + [a[1]] == [a[0], a[1]] && [a[0], a[1]] + [a[2]] == [a[0], a[1], a[2]];
    ScanField(a[3], "", [a[0], a[1], a[2]]);
    ScanEnd(a[3], |d|, [a[0], a[1], a[2]]);
    assert a == [a[0], a[1], a[2]] + [a[3]];
  }

  lemma ScanEnd(n: Byte, digits: nat, done: seq<Byte>)
    requires |done| == 3 && digits > 0
    ensures Scan("", n, digits, done) == Some(done + [n])
  {
  }

  /** The text of the fields read so far. */
  function Joined(done: seq<Byte>): string {
    if done == [] then "" else Joined(done[..|done| - 1]) + Dec(done[|done| - 1]) + "."
  }

  function Read(val: nat, digits: nat, done: seq<Byte>): string {
    Joined(done) + if digits == 0 then "" else Dec(val)
  }

  lemma ReadDot(val: Byte, digits: nat, done: seq<Byte>)
    requires digits > 0
    ensures Read(0, 0, done + [val]) == Read(val, digits, done) + "."
  {
    hide Dec;
    assert (done + [val])[..|done|] == done;
  }

  lemma ReadDigit(val: nat, digits: nat, done: seq<Byte>, c: char)
    requires IsDigit(c) && (digits == 0 ==> val == 0) && (digits > 0 ==> val > 0)
    ensures Read(10 * val + (c as int - '0' as int), digits + 1, done) == Read(val, digits, done) + [c]
  {
    hide Joined;
  }

  /** Whatever the scanner accepts is, with what it has read, a canonical text. */
  lemma {:induction false} ScanSound(s: string, val: nat, digits: nat, done: seq<Byte>)
    requires |done| <= 3 && val <= 255 && (digits == 0 ==> val == 0) && (digits > 1 ==> val > 0)
    requires Scan(s, val, digits, done).Some?
    ensures Read(val, digits, done) + s == Render(Scan(s, val, digits, done).value)
  {
    hide Read, Render;
    var read := Read(val, digits, done);
    if s == [] {
      ReadAll(val, digits, done);
      assert read + s == read;
    } else if s[0] == '.' {
      ReadDot(val, digits, done);
      ScanSound(s[1..], 0, 0, done + [val]);
      Shift(read, s);
    } else {
      ReadDigit(val, digits, done, s[0]);
      ScanSound(s[1..], 10 * val + (s[0] as int - '0' as int), digits + 1, done);
      Shift(read, s);
    }
  }

  lemma Shift(read: string, s: string)
    requires s != []
    ensures read + s == read + [s[0]] + s[1..]
  {
  }

  lemma ReadAll(val: Byte, digits: nat, done: seq<Byte>)
    requires digits > 0 && |done| == 3
    ensures Read(val, digits, done) == Render(done + [val])
  {
    hide Dec;
    FourFields(done + [val]);
    assert (done + [val])[..3] == done;
  }

  lemma FourFields(a: Addr)
    ensures Render(a) == Joined(a[..3]) + Dec(a[3])
  {
    hide Dec;
    assert a[..3][..2] == a[..2] && a[..2][..1] == a[..1] && a[..1][..0] == [];
    assert Joined(a[..1]) == Dec(a[0]) + ".";
    assert Joined(a[..2]) == Dec(a[0]) + "." + Dec(a[1]) + ".";
    assert Joined(a[..3]) == Dec(a[0]) + "." + Dec(a[1]) + "." + Dec(a[2]) + ".";
  }

  /** The IPv4 parser accepts exactly the canonical texts, each as its own address: no
      leading zeros, no other spelling. */
  lemma ParserIsCanonical(s: string, a: Addr)
    ensures Scan(s, 0, 0, []) == Some(a) <==> s == Render(a)
  {
    hide Render;
    ScanRender(a);
    if Scan(s, 0, 0, []).Some? { ScanSound(s, 0, 0, []); }
  }

  lemma {:induction false} MarkAfter(x: string, r: string)
    requires Free(x, '.') && Free(x, ':')
    ensures FirstMark(x + "." + r) == Some('.')
  {
    var s := x + "." + r;
    if x != [] {
      assert s[1..] == x[1..] + "." + r;
      MarkAfter(x[1..], r);
    }
  }

  /** Rendering and parsing round-trip. */
  lemma ParseRender(v6: V6, a: Addr)
    ensures ParseIP(v6, Render(a)) == Some(a)
  {
    hide Dec, Scan;
    MarkAfter(Dec(a[0]), Dec(a[1]) + "." + (Dec(a[2]) + "." + Dec(a[3])));
    ScanRender(a);
  }

  // ---------------------------------------------------------------- strings

  predicate IsSpace(c: char) {
    c in "\t\n\r " || c as int in {11, 12, 0x85, 0xA0}
  }

  /** strings.TrimSpace. */
  function Trim(s: string): string {
    if s == [] then []
    else if IsSpace(s[0]) then Trim(s[1..])
    else if IsSpace(s[|s| - 1]) then Trim(s[..|s| - 1])
    else s
  }

  function Lower(s: string): string {
    seq(|s|, k requires 0 <= k < |s| => if 'A' <= s[k] <= 'Z' then (s[k] as int + 32) as char else s[k])
  }

  /** strings.ReplaceAll of one character. */
  function Replace(s: string, x: char, y: char): string {
    seq(|s|, k requires 0 <= k < |s| => if s[k] == x then y else s[k])
  }

  const PREFIX := "placeholder-"

  function Dashed(a: Addr): string {
    Replace(Render(a), '.', '-')
  }

  /** The placeholder identity of an address. */
  function Encode(a: Addr): string {
    PREFIX + Dashed(a)
  }

  /** PlaceholderUUID; "" when the text is no IPv4 address. */
  function PlaceholderUUID(v6: V6, ip: string): string {
    match ParseIP(v6, Trim(ip))
    case None => ""
    case Some(a) => Encode(a)
  }

  predicate IsPlaceholder(s: string) {
    PREFIX <= s
  }

  /** validatePlaceholderUUID. */
  function ValidatePlaceholder(v6: V6, text: string): Option<string> {
    var s := Lower(Trim(text));
    if !IsPlaceholder(s) then None
    else
      match ParseIP(v6, Replace(s[|PREFIX|..], '-', '.'))
      case None => None
      case Some(a) => Some(PlaceholderUUID(v6, Render(a)))
  }

  predicate IsHex(c: char) {
    '0' <= c <= '9' || 'a' <= c <= 'f'
  }

  /** smbiosUUIDRE. */
  predicate IsSmbios(s: string) {
    |s| == 36 && forall k :: 0 <= k < 36 ==> if k in {8, 13, 18, 23} then s[k] == '-' else IsHex(s[k])
  }

  /** validateMachineUUIDOrPlaceholder. */
  function ValidateMachine(v6: V6, text: string): Option<string> {
    var u := Lower(Trim(text));
    if IsSmbios(u) then Some(u)
    else if IsPlaceholder(u) then ValidatePlaceholder(v6, u)
    else None
  }

  /** validateIP. */
  function ValidateIP(v6: V6, text: string): Option<string> {
    match ParseIP(v6, Trim(text))
    case None => None
    case Some(a) => Some(Render(a))
  }

  // ---------------------------------------------------------------- properties

  predicate Plain(s: string) {
    forall k :: 0 <= k < |s| ==> !IsSpace(s[k]) && !('A' <= s[k] <= 'Z')
  }

  lemma PlainFixed(s: string)
    requires Plain(s)
    ensures Trim(s) == s && Lower(s) == s
  {
    assert Lower(s) == s;
  }

  lemma RenderPlain(a: Addr)
    ensures Plain(Render(a)) && Free(Render(a), '-')
    ensures Plain(Dashed(a))
  {
    hide Dec;
    var s := Render(a);
    forall k | 0 <= k < |s| ensures s[k] == '.' || '0' <= s[k] <= '9' { RenderChar(a, k); }
  }

  lemma RenderChar(a: Addr, k: nat)
    requires k < |Render(a)|
    ensures Render(a)[k] == '.' || '0' <= Render(a)[k] <= '9'
  {
    hide Dec;
    var d := Dec(a[2]) + "." + Dec(a[3]);
    assert forall j :: 0 <= j < |d| ==> d[j] == '.' || '0' <= d[j] <= '9';
    var e := Dec(a[1]) + "." + d;
    assert forall j :: 0 <= j < |e| ==> e[j] == '.' || '0' <= e[j] <= '9';
  }

  lemma EncodePlain(a: Addr)
    ensures Plain(Encode(a))
  {
    hide Dashed;
    RenderPlain(a);
    assert Plain(PREFIX);
  }

  /** Undoing the dashes gives back the dotted text. */
  lemma Undash(a: Addr)
    ensures Replace(Dashed(a), '-', '.') == Render(a)
  {
    hide Render;
    RenderPlain(a);
  }

  /** The encoding of a canonical IPv4 text is the encoding of its address. */
  lemma PlaceholderOf(v6: V6, a: Addr)
    ensures PlaceholderUUID(v6, Render(a)) == Encode(a)
  {
    hide Render, ParseIP;
    RenderPlain(a);
    PlainFixed(Render(a));
    ParseRender(v6, a);
  }

  lemma EncodeInjective(a: Addr, b: Addr)
    requires Encode(a) == Encode(b)
    ensures a == b
  {
    hide Render, Dashed;
    assert Dashed(a) == Encode(a)[|PREFIX|..] && Dashed(b) == Encode(b)[|PREFIX|..];
    Undash(a);
    Undash(b);
    ParserIsCanonical(Render(a), a);
    ParserIsCanonical(Render(a), b);
  }

  /** PlaceholderUUID is injective on canonical addresses. */
  lemma PlaceholderInjective(v6: V6, a: Addr, b: Addr)
    requires PlaceholderUUID(v6, Render(a)) == PlaceholderUUID(v6, Render(b))
    ensures a == b
  {
    hide Render, PlaceholderUUID, Encode;
    PlaceholderOf(v6, a);
    PlaceholderOf(v6, b);
    EncodeInjective(a, b);
  }

  /** Every output of PlaceholderUUID validates, unchanged. */
  lemma EncodingValidates(v6: V6, a: Addr)
    ensures IsPlaceholder(Encode(a)) && ValidatePlaceholder(v6, Encode(a)) == Some(Encode(a))
  {
    hide Render, PlaceholderUUID, Dashed, ParseIP, Replace;
    EncodePlain(a);
    PlainFixed(Encode(a));
    assert Encode(a)[|PREFIX|..] == Dashed(a);
    Undash(a);
    ParseRender(v6, a);
    PlaceholderOf(v6, a);
  }

  /** Validation yields encodings of IPv4 addresses only, and is idempotent. */
  lemma ValidatedIsEncoding(v6: V6, text: string)
    requires ValidatePlaceholder(v6, text).Some?
    ensures var u := ValidatePlaceholder(v6, text).value;
            (exists a: Addr :: u == Encode(a)) && ValidatePlaceholder(v6, u) == Some(u)
  {
    hide Render, PlaceholderUUID, Encode, ParseIP;
    var s := Lower(Trim(text));
    var a := ParseIP(v6, Replace(s[|PREFIX|..], '-', '.')).value;
    PlaceholderOf(v6, a);
    hide ValidatePlaceholder;
    EncodingValidates(v6, a);
  }

  /** No SMBIOS UUID looks like a placeholder. */
  lemma SmbiosIsNotPlaceholder(u: string)
    requires IsSmbios(u)
    ensures !IsPlaceholder(u)
  {
    assert IsHex(u[0]) && PREFIX[0] == 'p';
  }

  /** A validated machine identity is an SMBIOS UUID or the encoding of an address. */
  lemma MachineForms(v6: V6, text: string)
    requires ValidateMachine(v6, text).Some?
    ensures var u := ValidateMachine(v6, text).value;
            if IsPlaceholder(u) then exists a: Addr :: u == Encode(a) else IsSmbios(u)
  {
    hide ValidatePlaceholder, Encode, IsSmbios;
    var u := Lower(Trim(text));
    if IsSmbios(u) {
      SmbiosIsNotPlaceholder(u);
    } else {
      ValidatedIsEncoding(v6, u);
      var a: Addr :| ValidatePlaceholder(v6, u).value == Encode(a);
      EncodingValidates(v6, a);
    }
  }

  // ---------------------------------------------------------------- surrounding space and case

  predicate Blanks(s: string) {
    forall k :: 0 <= k < |s| ==> s[k] in " \t\n\r"
  }

  /** Surrounding white space goes, everything else stays. */
  lemma {:induction false} TrimsBlanks(pre: string, s: string, post: string)
    requires Blanks(pre) && Blanks(post) && s != "" && !IsSpace(s[0]) && !IsSpace(s[|s| - 1])
    ensures Trim(pre + s + post) == s
    decreases |pre| + |post|
  {
    var t := pre + s + post;
    if pre != "" {
      assert t[1..] == pre[1..] + s + post;
      TrimsBlanks(pre[1..], s, post);
    } else if post != "" {
      assert t[..|t| - 1] == pre + s + post[..|post| - 1] && t[0] == s[0];
      TrimsBlanks(pre, s, post[..|post| - 1]);
    } else {
      assert t == s;
    }
  }

  /** Letters in upper case have their lower-case form thirty-two places on. */
  predicate SameLetter(a: char, b: char) {
    if 'A' <= a <= 'Z' then b as int == a as int + 32 else b == a
  }

  /** A hexadecimal digit in either case. */
  predicate IsHexDigit(c: char) {
    '0' <= c <= '9' || 'a' <= c <= 'f' || 'A' <= c <= 'F'
  }

  /** Every SMBIOS UUID, in any case and with surrounding white space, validates to its
      lower-case form: 8-4-4-4-12 hexadecimal digits. */
  lemma SmbiosValidates(v6: V6, pre: string, u: string, post: string) returns (w: string)
    requires Blanks(pre) && Blanks(post) && |u| == 36
    requires forall k :: 0 <= k < 36 ==> if k == 8 || k == 13 || k == 18 || k == 23 then u[k] == '-' else IsHexDigit(u[k])
    ensures ValidateMachine(v6, pre + u + post) == Some(w)
    ensures |w| == 36 && forall k :: 0 <= k < 36 ==> SameLetter(u[k], w[k])
  {
    hide ValidatePlaceholder, Trim;
    TrimsBlanks(pre, u, post);
    w := Lower(u);
  }

  /** What is accepted and is no placeholder has that form. */
  lemma AcceptedForm(v6: V6, text: string)
    requires ValidateMachine(v6, text).Some? && !("placeholder-" <= ValidateMachine(v6, text).value)
    ensures var w := ValidateMachine(v6, text).value;
            |w| == 36 && forall k :: 0 <= k < 36 ==>
              if k == 8 || k == 13 || k == 18 || k == 23 then w[k] == '-' else '0' <= w[k] <= '9' || 'a' <= w[k] <= 'f'
  {
    hide ValidateMachine;
    MachineForms(v6, text);
  }

  /** Every canonical address, with surrounding white space, validates to itself, and its
      placeholder is the same. */
  lemma AddressValidates(v6: V6, pre: string, a: Addr, post: string)
    requires Blanks(pre) && Blanks(post)
    ensures ValidateIP(v6, pre + Render(a) + post) == Some(Render(a))
    ensures PlaceholderUUID(v6, pre + Render(a) + post) == Encode(a)
  {
    RenderPlain(a);
    RenderEnds(a);
    hide Render, ParseIP, Trim;
    TrimsBlanks(pre, Render(a), post);
    ParseRender(v6, a);
  }

  lemma RenderEnds(a: Addr)
    ensures Render(a) != ""
  {
  }

  /** The decimal value of a text of digits. */
  function Decimal(s: string): int {
    if s == [] then 0 else 10 * Decimal(s[..|s| - 1]) + (s[|s| - 1] as int - '0' as int)
  }

  /** Rendering is decimal, without leading zeros. */
  lemma {:induction false} DecIsDecimal(n: nat)
    ensures Decimal(Dec(n)) == n && (|Dec(n)| > 1 ==> Dec(n)[0] != '0')
  {
    if n >= 10 {
      DecIsDecimal(n / 10);
      assert Dec(n)[..|Dec(n)| - 1] == Dec(n / 10);
      if n / 10 < 10 { assert Dec(n / 10) == [Digit(n / 10)]; }
    } else {
      assert Dec(n)[..0] == [];
    }
  }

  lemma DecTwo(n: nat)
    requires 10 <= n < 100
    ensures Dec(n) == [Digit(n / 10), Digit(n % 10)]
  {
    assert Dec(n / 10) == [Digit(n / 10)];
  }

  lemma DecThree(n: nat)
    requires 100 <= n < 1000
    ensures Dec(n) == [Digit(n / 100), Digit(n / 10 % 10), Digit(n % 10)]
  {
    DecTwo(n / 10);
    assert n / 10 / 10 == n / 100;
  }

  /** The documented example. */
  lemma EncodingExample()
    ensures Encode([192, 168, 10, 254]) == "placeholder-192-168-10-254"
  {
    hide Render;
    RenderExample();
    assert Replace("192.168.10.254", '.', '-') == "192-168-10-254";
  }

  lemma RenderExample()
    ensures Render([192, 168, 10, 254]) == "192.168.10.254"
  {
    hide Dec;
    DecThree(192);
    DecThree(168);
    DecTwo(10);
    DecThree(254);
  }

  /** A text whose first separator is a colon is an IPv6 text; one without separators is none. */
  lemma {:induction false} OtherTexts(v6: V6, x: string, r: string)
    requires Free(x, '.') && Free(x, ':')
    ensures ParseIP(v6, x + ":" + r) == v6(x + ":" + r) && ParseIP(v6, x) == None
    ensures FirstMark(x + ":" + r) == Some(':') && FirstMark(x) == None
  {
    if x != "" {
      assert (x + ":" + r)[1..] == x[1..] + ":" + r;
      OtherTexts(v6, x[1..], r);
    }
  }
}
