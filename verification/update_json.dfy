/**
 * A reference reading of the JSON the system services print: `null`, strings (section 7 of
 * RFC 8259), arrays and objects, without insignificant white space.
 */
module Json {
  import opened Wrappers
  import opened Text

  datatype Json = Null | Str(text: string) | Arr(items: seq<Json>) | Obj(members: seq<(string, Json)>)

  // ---------------------------------------------------------------------
  // Strings
  // ---------------------------------------------------------------------

  function HexDigit(n: nat): char
    requires n < 16
  {
    if n < 10 then ('0' as int + n) as char else ('a' as int + (n - 10)) as char
  }

  function HexValue(c: char): Option<nat> {
    if '0' <= c <= '9' then Some(c as int - '0' as int)
    else if 'a' <= c <= 'f' then Some(c as int - 'a' as int + 10)
    else if 'A' <= c <= 'F' then Some(c as int - 'A' as int + 10)
    else None
  }

  lemma HexDigitsAreRead(n: nat)
    requires n < 16
    ensures HexValue(HexDigit(n)) == Some(n)
    ensures !IsControl(HexDigit(n))
  {
  }

  /** Four digits, as `{:04x}` prints a number below 0x10000. */
  function Hex4(n: nat): string
    requires n < 0x10000
  {
    [HexDigit(n / 0x1000), HexDigit(n / 0x100 % 16), HexDigit(n / 16 % 16), HexDigit(n % 16)]
  }

  function HexNumber(s: string): Option<nat>
    requires |s| >= 4
  {
    var a, b, c, d := HexValue(s[0]), HexValue(s[1]), HexValue(s[2]), HexValue(s[3]);
    if a.None? || b.None? || c.None? || d.None? then None
    else Some(a.value * 0x1000 + b.value * 0x100 + c.value * 16 + d.value)
  }

  lemma DigitsAddUp(n: nat)
    ensures n == n / 0x1000 * 0x1000 + n / 0x100 % 16 * 0x100 + n / 16 % 16 * 16 + n % 16
  {
    assert n / 16 / 16 == n / 0x100 && n / 0x100 / 16 == n / 0x1000;
  }

  lemma FourDigits(a: nat, b: nat, c: nat, d: nat, rest: string)
    requires a < 16 && b < 16 && c < 16 && d < 16
    ensures HexNumber([HexDigit(a), HexDigit(b), HexDigit(c), HexDigit(d)] + rest)
      == Some(a * 0x1000 + b * 0x100 + c * 16 + d)
  {
  }

  lemma Hex4IsRead(n: nat, rest: string)
    requires n < 0x10000
    ensures HexNumber(Hex4(n) + rest) == Some(n)
  {
    FourDigits(n / 0x1000, n / 0x100 % 16, n / 16 % 16, n % 16, rest);
    DigitsAddUp(n);
  }

  /** The characters a backslash and one letter stand for. */
  function ShortEscape(c: char): Option<char> {
    if c == '"' || c == '\\' || c == '/' then Some(c)
    else if c == 'b' then Some(0x8 as char)
    else if c == 'f' then Some(0xC as char)
    else if c == 'n' then Some('\n')
    else if c == 'r' then Some('\r')
    else if c == 't' then Some('\t')
    else None
  }

  predicate HighSurrogate(n: nat) { 0xD800 <= n < 0xDC00 }

  predicate LowSurrogate(n: nat) { 0xDC00 <= n < 0xE000 }

  /** A `u` escape after its letter: the character and how many characters it took. */
  function UnicodeEscape(s: string): (r: Option<(char, nat)>)
    ensures r.Some? ==> r.value.1 <= |s|
  {
    if |s| < 4 || HexNumber(s).None? then None
    else
      var n := HexNumber(s).value;
      if HighSurrogate(n) then
        if |s| < 10 || s[4] != '\\' || s[5] != 'u' || HexNumber(s[6..]).None? then None
        else
          var m := HexNumber(s[6..]).value;
          if LowSurrogate(m) then Some(((0x10000 + (n - 0xD800) * 0x400 + (m - 0xDC00)) as char, 10)) else None
      else if LowSurrogate(n) || n >= 0x10000 then None
      else Some((n as char, 4))
  }

  /** The text up to the closing quote, and what follows it. */
  function ReadString(s: string): (r: Option<(string, string)>)
    ensures r.Some? ==> |r.value.1| < |s|
  {
    if s == [] || s[0] as int < 0x20 then None
    else if s[0] == '"' then Some(([], s[1..]))
    else if s[0] != '\\' then Prepend(s[0], ReadString(s[1..]))
    else if |s| < 2 then None
    else if s[1] != 'u' then
      if ShortEscape(s[1]).None? then None else Prepend(ShortEscape(s[1]).value, ReadString(s[2..]))
    else
      var u := UnicodeEscape(s[2..]);
      if u.None? then None else Prepend(u.value.0, ReadString(s[2..][u.value.1..]))
  }

  function Prepend(c: char, r: Option<(string, string)>): Option<(string, string)> {
    if r.None? then None else Some(([c] + r.value.0, r.value.1))
  }

  // ---------------------------------------------------------------------
  // Values
  // ---------------------------------------------------------------------

  function ReadValue(s: string): (r: Option<(Json, string)>)
    ensures r.Some? ==> |r.value.1| < |s|
    decreases |s|, 0
  {
    if |s| >= 4 && s[0] == 'n' && s[1] == 'u' && s[2] == 'l' && s[3] == 'l' then Some((Null, s[4..]))
    else if s == [] then None
    else if s[0] == '"' then
      var t := ReadString(s[1..]);
      if t.None? then None else Some((Str(t.value.0), t.value.1))
    else if s[0] == '[' then
      if |s| > 1 && s[1] == ']' then Some((Arr([]), s[2..]))
      else
        var t := ReadItems(s[1..]);
        if t.None? then None else Some((Arr(t.value.0), t.value.1))
    else if s[0] == '{' then
      if |s| > 1 && s[1] == '}' then Some((Obj([]), s[2..]))
      else
        var t := ReadMembers(s[1..]);
        if t.None? then None else Some((Obj(t.value.0), t.value.1))
    else None
  }

  /** One or more values and the closing bracket. */
  function ReadItems(s: string): (r: Option<(seq<Json>, string)>)
    ensures r.Some? ==> |r.value.1| < |s|
    decreases |s|, 1
  {
    var v := ReadValue(s);
    if v.None? || v.value.1 == [] then None
    else if v.value.1[0] == ']' then Some(([v.value.0], v.value.1[1..]))
    else if v.value.1[0] != ',' then None
    else
      var more := ReadItems(v.value.1[1..]);
      if more.None? then None else Some(([v.value.0] + more.value.0, more.value.1))
  }

  /** One or more members and the closing brace. */
  function ReadMembers(s: string): (r: Option<(seq<(string, Json)>, string)>)
    ensures r.Some? ==> |r.value.1| < |s|
    decreases |s|, 1
  {
    if s == [] || s[0] != '"' then None
    else
      var name := ReadString(s[1..]);
      if name.None? || name.value.1 == [] || name.value.1[0] != ':' then None
      else
        var v := ReadValue(name.value.1[1..]);
        if v.None? || v.value.1 == [] then None
        else if v.value.1[0] == '}' then Some(([(name.value.0, v.value.0)], v.value.1[1..]))
        else if v.value.1[0] != ',' then None
        else
          var more := ReadMembers(v.value.1[1..]);
          if more.None? then None else Some(([(name.value.0, v.value.0)] + more.value.0, more.value.1))
  }

  /** The document that is exactly one value. */
  function Decode(s: string): Option<Json> {
    var r := ReadValue(s);
    if r.Some? && r.value.1 == [] then Some(r.value.0) else None
  }
}

/** The document the update service prints for a plan. */
module UpdateJson {
  import opened Wrappers
  import opened Text
  import opened Json

  datatype UpdateOperation = Status | Check | Apply | Rollback {
    function AsStr(): string {
      match this
      case Status => "status"
      case Check => "check"
      case Apply => "apply"
      case Rollback => "rollback"
    }
  }

  datatype ReleaseChannel = Nightly | Alpha | Beta | Stable {
    function AsStr(): string {
      match this
      case Nightly => "nightly"
      case Alpha => "alpha"
      case Beta => "beta"
      case Stable => "stable"
    }
  }

  datatype UpdatePlan = UpdatePlan(operation: UpdateOperation, channel: Option<ReleaseChannel>, argv: seq<string>)

  /** What one character becomes inside a string. */
  function EscapeChar(c: char): string {
    if c == '"' then ['\\', '"']
    else if c == '\\' then ['\\', '\\']
    else if c == '\n' then ['\\', 'n']
    else if c == '\r' then ['\\', 'r']
    else if c == '\t' then ['\\', 't']
    else if IsControl(c) then ['\\', 'u'] + Hex4(c as int)
    else [c]
  }

  function Escape(value: string): string {
    if value == [] then [] else EscapeChar(value[0]) + Escape(value[1..])
  }

  /** `json_escape`. */
  method JsonEscape(value: string) returns (escaped: string)
    ensures escaped == Escape(value)
  {
    escaped := [];
    assert value[0..] == value;
    for i := 0 to |value|
      invariant escaped + Escape(value[i..]) == Escape(value)
    {
      var c := value[i];
      assert value[i..] == [c] + value[i + 1..];
      var part: string;
      if c == '"' { part := ['\\', '"']; }
      else if c == '\\' { part := ['\\', '\\']; }
      else if c == '\n' { part := ['\\', 'n']; }
      else if c == '\r' { part := ['\\', 'r']; }
      else if c == '\t' { part := ['\\', 't']; }
      else if IsControl(c) { part := ['\\', 'u'] + Hex4(c as int); }
      else { part := [c]; }
      EscapeGoesOn(escaped, part, value[i..]);
      escaped := escaped + part;
    }
  }

  lemma EscapeGoesOn(before: string, part: string, left: string)
    requires left != [] && part == EscapeChar(left[0])
    ensures before + Escape(left) == before + part + Escape(left[1..])
  {
  }

  lemma EscapedCharIsRead(c: char, rest: string)
    ensures ReadString(EscapeChar(c) + rest) == Prepend(c, ReadString(rest))
  {
    var s := EscapeChar(c) + rest;
    if c == '"' || c == '\\' || c == '\n' || c == '\r' || c == '\t' {
      assert s[2..] == rest;
    } else if IsControl(c) {
      assert s[2..] == Hex4(c as int) + rest;
      Hex4IsRead(c as int, rest);
      assert s[2..][4..] == rest;
    } else {
      assert s[1..] == rest;
    }
  }

  /** Reading an escaped text stops exactly at the closing quote and gives the text back, for all strings. */
  lemma {:induction false} EscapedTextIsRead(value: string, rest: string)
    ensures ReadString(Escape(value) + ['"'] + rest) == Some((value, rest))
  {
    if value == [] {
      assert Escape(value) + ['"'] + rest == ['"'] + rest;
    } else {
      var tail := Escape(value[1..]) + ['"'] + rest;
      assert Escape(value) + ['"'] + rest == EscapeChar(value[0]) + tail;
      EscapedCharIsRead(value[0], tail);
      EscapedTextIsRead(value[1..], rest);
      assert value == [value[0]] + value[1..];
    }
  }

  /** No control character survives unescaped. */
  lemma {:induction false} EscapedTextIsPrintable(value: string)
    ensures forall c :: c in Escape(value) ==> !IsControl(c)
  {
    if value != [] {
      EscapedTextIsPrintable(value[1..]);
      var n := value[0] as int;
      if n < 0x10000 {
        HexDigitsAreRead(n / 0x1000);
        HexDigitsAreRead(n / 0x100 % 16);
        HexDigitsAreRead(n / 16 % 16);
        HexDigitsAreRead(n % 16);
      }
    }
  }

  function Quoted(value: string): string { ['"'] + Escape(value) + ['"'] }

  /** `collect` and `join(",")`. */
  function Joined(argv: seq<string>): string {
    if argv == [] then []
    else if |argv| == 1 then Quoted(argv[0])
    else Quoted(argv[0]) + [','] + Joined(argv[1..])
  }

  function ChannelText(channel: Option<ReleaseChannel>): string {
    if channel.None? then "null" else Bare(channel.value.AsStr())
  }

  /** Between quotes, but not escaped. */
  function Bare(text: string): string { ['"'] + text + ['"'] }

  /** `format_plan_json`: the names, the operation and the channel are printed bare, the arguments escaped. */
  function FormatPlan(plan: UpdatePlan): string {
    ['{'] + Bare("operation") + [':'] + Bare(plan.operation.AsStr()) + [',']
      + Bare("channel") + [':'] + ChannelText(plan.channel) + [',']
      + Bare("argv") + [':'] + (['['] + Joined(plan.argv) + [']']) + ['}']
  }

  /** The document as a value. */
  function Document(plan: UpdatePlan): Json {
    Obj([("operation", Str(plan.operation.AsStr())),
         ("channel", if plan.channel.None? then Null else Str(plan.channel.value.AsStr())),
         ("argv", Arr(Strings(plan.argv)))])
  }

  function Strings(argv: seq<string>): (r: seq<Json>)
    ensures |r| == |argv| && forall i :: 0 <= i < |r| ==> r[i] == Str(argv[i])
  {
    seq(|argv|, i requires 0 <= i < |argv| => Str(argv[i]))
  }

  // ---------------------------------------------------------------------
  // Reading it back
  // ---------------------------------------------------------------------

  lemma StringIsAValue(s: string, t: string, rest: string)
    requires s != [] && s[0] == '"' && ReadString(s[1..]) == Some((t, rest))
    ensures ReadValue(s) == Some((Str(t), rest))
  {
  }

  lemma QuotedParts(value: string, rest: string)
    ensures var s := Quoted(value) + rest; s[0] == '"' && s[1..] == Escape(value) + ['"'] + rest
  {
  }

  lemma QuotedIsRead(value: string, rest: string)
    ensures ReadValue(Quoted(value) + rest) == Some((Str(value), rest))
  {
    EscapedTextIsRead(value, rest);
    QuotedParts(value, rest);
    StringIsAValue(Quoted(value) + rest, value, rest);
  }

  lemma LastItem(s: string, v: Json, rest: string)
    requires ReadValue(s) == Some((v, [']'] + rest))
    ensures ReadItems(s) == Some(([v], rest))
  {
  }

  lemma FirstItem(s: string, v: Json, tail: string, more: seq<Json>, rest: string)
    requires ReadValue(s) == Some((v, [','] + tail)) && ReadItems(tail) == Some((more, rest))
    ensures ReadItems(s) == Some(([v] + more, rest))
  {
  }

  /** What follows the first of the joined arguments. */
  function AfterFirst(argv: seq<string>, rest: string): string
    requires argv != []
  {
    if |argv| == 1 then [']'] + rest else [','] + (Joined(argv[1..]) + [']'] + rest)
  }

  lemma JoinedParts(argv: seq<string>, rest: string)
    requires argv != []
    ensures Joined(argv) + [']'] + rest == Quoted(argv[0]) + AfterFirst(argv, rest)
  {
    if |argv| == 1 {
      assert Joined(argv) == Quoted(argv[0]);
    } else {
      JoinTexts(Quoted(argv[0]), [','], Joined(argv[1..]), [']'], rest);
    }
  }

  lemma JoinTexts(a: string, b: string, c: string, d: string, e: string)
    ensures a + b + c + d + e == a + (b + (c + d + e))
  {
  }

  lemma {:induction false} JoinedIsRead(argv: seq<string>, s: string, rest: string)
    requires argv != [] && s == Joined(argv) + [']'] + rest
    ensures ReadItems(s) == Some((Strings(argv), rest))
    decreases argv
  {
    JoinedParts(argv, rest);
    QuotedIsRead(argv[0], AfterFirst(argv, rest));
    if |argv| == 1 {
      LastItem(s, Str(argv[0]), rest);
      assert Strings(argv) == [Str(argv[0])];
    } else {
      var tail := Joined(argv[1..]) + [']'] + rest;
      JoinedIsRead(argv[1..], tail, rest);
      FirstItem(s, Str(argv[0]), tail, Strings(argv[1..]), rest);
      assert Strings(argv) == [Str(argv[0])] + Strings(argv[1..]);
    }
  }

  lemma ArgvIsRead(argv: seq<string>, rest: string)
    ensures ReadValue(['['] + Joined(argv) + [']'] + rest) == Some((Arr(Strings(argv)), rest))
  {
    var s := ['['] + Joined(argv) + [']'] + rest;
    if argv == [] {
      assert s == ['[', ']'] + rest && s[2..] == rest;
      assert Strings(argv) == [];
    } else {
      assert s[1..] == Joined(argv) + [']'] + rest && s[1] == '"';
      JoinedIsRead(argv, s[1..], rest);
    }
  }

  /** Text that needs no escape; the fixed identifiers are of this kind. */
  predicate Plain(t: string) {
    forall i :: 0 <= i < |t| ==> t[i] != '"' && t[i] != '\\' && !IsControl(t[i])
  }

  lemma {:induction false} PlainIsUnchanged(t: string)
    requires Plain(t)
    ensures Escape(t) == t
  {
    if t != [] {
      PlainIsUnchanged(t[1..]);
      assert t == [t[0]] + t[1..];
    }
  }

  lemma NamesArePlain(plan: UpdatePlan)
    ensures Plain(plan.operation.AsStr()) && (plan.channel.Some? ==> Plain(plan.channel.value.AsStr()))
    ensures Plain("operation") && Plain("channel") && Plain("argv")
  {
  }

  function Member(name: string, value: string): string { Quoted(name) + [':'] + value }

  lemma MemberParts(s: string, name: string, value: string, rest: string)
    requires s == Member(name, value) + rest
    ensures s[0] == '"' && ReadString(s[1..]) == Some((name, [':'] + (value + rest)))
  {
    EscapedTextIsRead(name, [':'] + (value + rest));
    assert s == ['"'] + (Escape(name) + ['"'] + ([':'] + (value + rest)));
  }

  lemma LastMember(s: string, name: string, value: string, item: Json, rest: string)
    requires s == Member(name, value) + (['}'] + rest)
    requires ReadValue(value + (['}'] + rest)) == Some((item, ['}'] + rest))
    ensures ReadMembers(s) == Some(([(name, item)], rest))
  {
    MemberParts(s, name, value, ['}'] + rest);
    assert ([':'] + (value + (['}'] + rest)))[1..] == value + (['}'] + rest);
    assert (['}'] + rest)[1..] == rest;
  }

  lemma FirstMember(s: string, name: string, value: string, item: Json, tail: string, more: seq<(string, Json)>, rest: string)
    requires s == Member(name, value) + ([','] + tail)
    requires ReadValue(value + ([','] + tail)) == Some((item, [','] + tail))
    requires ReadMembers(tail) == Some((more, rest))
    ensures ReadMembers(s) == Some(([(name, item)] + more, rest))
  {
    MemberParts(s, name, value, [','] + tail);
    assert ([':'] + (value + ([','] + tail)))[1..] == value + ([','] + tail);
    assert ([','] + tail)[1..] == tail;
  }

  /** `text` is read as `item`, whatever follows. */
  ghost predicate Spells(text: string, item: Json) {
    forall rest :: ReadValue(text + rest) == Some((item, rest))
  }

  function ThreeMembers(a: string, b: string, c: string): string {
    ['{'] + (a + ([','] + (b + ([','] + (c + ['}'])))))
  }

  lemma LastSpelled(name: string, value: string, item: Json)
    requires Spells(value, item)
    ensures ReadMembers(Member(name, value) + ['}']) == Some(([(name, item)], []))
  {
    assert ['}'] + [] == ['}'];
    LastMember(Member(name, value) + ['}'], name, value, item, []);
  }

  lemma NextSpelled(name: string, value: string, item: Json, tail: string, more: seq<(string, Json)>)
    requires Spells(value, item) && ReadMembers(tail) == Some((more, []))
    ensures ReadMembers(Member(name, value) + ([','] + tail)) == Some(([(name, item)] + more, []))
  {
    FirstMember(Member(name, value) + ([','] + tail), name, value, item, tail, more, []);
  }

  lemma ThreeMembersAreRead(a: string, x: string, i: Json, b: string, y: string, j: Json, c: string, z: string, k: Json)
    requires Spells(x, i) && Spells(y, j) && Spells(z, k)
    ensures Decode(ThreeMembers(Member(a, x), Member(b, y), Member(c, z))) == Some(Obj([(a, i), (b, j), (c, k)]))
  {
    LastSpelled(c, z, k);
    NextSpelled(b, y, j, Member(c, z) + ['}'], [(c, k)]);
    var s2 := Member(b, y) + ([','] + (Member(c, z) + ['}']));
    NextSpelled(a, x, i, s2, [(b, j)] + [(c, k)]);
    assert [(a, i)] + ([(b, j)] + [(c, k)]) == [(a, i), (b, j), (c, k)];
    BracesAreRead(Member(a, x) + ([','] + s2), [(a, i), (b, j), (c, k)]);
  }

  lemma BracesAreRead(s: string, members: seq<(string, Json)>)
    requires s != [] && s[0] == '"' && ReadMembers(s) == Some((members, []))
    ensures Decode(['{'] + s) == Some(Obj(members))
  {
  }

  lemma Regroup(a: string, operation: string, b: string, channel: string, c: string, argv: string)
    ensures ['{'] + a + [':'] + operation + [','] + b + [':'] + channel + [','] + c + [':'] + argv + ['}']
      == ThreeMembers(a + [':'] + operation, b + [':'] + channel, c + [':'] + argv)
  {
  }

  lemma FormatIsThreeMembers(plan: UpdatePlan)
    ensures FormatPlan(plan) == ThreeMembers(
      Member("operation", Quoted(plan.operation.AsStr())),
      Member("channel", if plan.channel.None? then "null" else Quoted(plan.channel.value.AsStr())),
      Member("argv", ['['] + Joined(plan.argv) + [']']))
  {
    NamesArePlain(plan);
    PlainIsUnchanged("operation");
    PlainIsUnchanged("channel");
    PlainIsUnchanged("argv");
    PlainIsUnchanged(plan.operation.AsStr());
    if plan.channel.Some? { PlainIsUnchanged(plan.channel.value.AsStr()); }
    Regroup(Quoted("operation"), Quoted(plan.operation.AsStr()), Quoted("channel"), ChannelText(plan.channel),
      Quoted("argv"), ['['] + Joined(plan.argv) + [']']);
  }

  /** Every printed plan is one JSON document, and it says what the plan says, for all arguments. */
  lemma PrintedPlanIsRead(plan: UpdatePlan)
    ensures Decode(FormatPlan(plan)) == Some(Document(plan))
  {
    var channel := if plan.channel.None? then "null" else Quoted(plan.channel.value.AsStr());
    var item := if plan.channel.None? then Null else Str(plan.channel.value.AsStr());
    var operation := Quoted(plan.operation.AsStr());
    var argv := ['['] + Joined(plan.argv) + [']'];
    forall rest ensures ReadValue(channel + rest) == Some((item, rest)) {
      if plan.channel.Some? { QuotedIsRead(plan.channel.value.AsStr(), rest); }
      else { assert (channel + rest)[4..] == rest; }
    }
    forall rest ensures ReadValue(operation + rest) == Some((Str(plan.operation.AsStr()), rest)) {
      QuotedIsRead(plan.operation.AsStr(), rest);
    }
    forall rest ensures ReadValue(argv + rest) == Some((Arr(Strings(plan.argv)), rest)) {
      ArgvIsRead(plan.argv, rest);
    }
    FormatIsThreeMembers(plan);
    ThreeMembersAreRead("operation", operation, Str(plan.operation.AsStr()), "channel", channel, item,
      "argv", argv, Arr(Strings(plan.argv)));
  }

  /** So no two plans print the same text. */
  lemma PrintedPlansDiffer(a: UpdatePlan, b: UpdatePlan)
    requires FormatPlan(a) == FormatPlan(b)
    ensures a == b
  {
    PrintedPlanIsRead(a);
    PrintedPlanIsRead(b);
    var x, y := Document(a).members, Document(b).members;
    assert x[0] == y[0] && x[1] == y[1] && x[2] == y[2];
    forall i | 0 <= i < |a.argv| ensures a.argv[i] == b.argv[i] {
      assert Strings(a.argv)[i] == Strings(b.argv)[i];
    }
  }
}
