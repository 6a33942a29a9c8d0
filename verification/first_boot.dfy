/** The first-boot file: validation, its text, a reader for it, and agreement with the installer. */
module FirstBootFile {
  import opened Wrappers
  import opened Text
  import opened ResourcePolicy
  import opened InstallerDomain

  const FIRST_BOOT_RESERVED := ["root", "daemon", "bin", "devcore"]

  datatype SetupConfig = SetupConfig(
    language: string, keyboard: string, timezone: string, username: string, hostname: string,
    profile: MachineProfile)
  {
    predicate Valid() {
      && ValidLocale(language) && ValidKeyboard(keyboard) && ValidTimezone(timezone)
      && ValidUsername(username, FIRST_BOOT_RESERVED) && ValidHostname(hostname)
    }

    /** The first field that breaks its rule. */
    function Fault(): (r: Option<SettingsField>)
      ensures r.None? <==> Valid()
    {
      if !ValidLocale(language) then Some(LocaleField)
      else if !ValidKeyboard(keyboard) then Some(KeyboardField)
      else if !ValidTimezone(timezone) then Some(TimezoneField)
      else if !ValidUsername(username, FIRST_BOOT_RESERVED) then Some(UsernameField)
      else if !ValidHostname(hostname) then Some(HostnameField)
      else None
    }

    /** The pairs the format string prints, one a line. */
    function Pairs(): seq<(string, string)> {
      [("version", "1"), ("language", language), ("keyboard", keyboard), ("timezone", timezone),
       ("username", username), ("hostname", hostname), ("profile", profile.AsStr())]
    }

    function Encode(): string { Print(Pairs()) }
  }

  function Line(pair: (string, string)): string { pair.0 + ['='] + pair.1 + ['\n'] }

  function Print(pairs: seq<(string, string)>): string {
    if pairs == [] then [] else Line(pairs[0]) + Print(pairs[1..])
  }

  // ---------------------------------------------------------------------
  // Reading
  // ---------------------------------------------------------------------

  /** Terminated lines, each a key, `=` and a value. */
  function ReadPairs(s: string): Option<seq<(string, string)>>
    decreases |s|
  {
    if s == [] then Some([])
    else
      var line := Split(s, '\n');
      if line.None? then None
      else
        var pair := Split(line.value.0, '=');
        var more := ReadPairs(line.value.1);
        if pair.None? || more.None? then None else Some([pair.value] + more.value)
  }

  predicate Printable(pair: (string, string)) {
    '=' !in pair.0 && '\n' !in pair.0 && '\n' !in pair.1
  }

  /** Reading what was printed gives the pairs back, for any pairs that fit on lines. */
  lemma {:induction false} PairsAreRead(pairs: seq<(string, string)>)
    requires forall i :: 0 <= i < |pairs| ==> Printable(pairs[i])
    ensures ReadPairs(Print(pairs)) == Some(pairs)
  {
    if pairs != [] {
      var pair, rest := pairs[0], Print(pairs[1..]);
      var content := pair.0 + ['='] + pair.1;
      assert Print(pairs) == content + ['\n'] + rest;
      SplitFindsTheMark(content, '\n', rest);
      SplitFindsTheMark(pair.0, '=', pair.1);
      PairsAreRead(pairs[1..]);
      assert pairs == [pair] + pairs[1..];
    }
  }

  /** The six fields under their keys, in their order, in version 1. */
  function Decode(text: string): Option<SetupConfig> {
    var pairs := ReadPairs(text);
    if pairs.None? || |pairs.value| != 7 then None
    else
      var p := pairs.value;
      var keys := p[0] == ("version", "1") && p[1].0 == "language" && p[2].0 == "keyboard" && p[3].0 == "timezone"
        && p[4].0 == "username" && p[5].0 == "hostname" && p[6].0 == "profile";
      var profile := ParseProfile(p[6].1);
      if keys && profile.Some? then Some(SetupConfig(p[1].1, p[2].1, p[3].1, p[4].1, p[5].1, profile.value)) else None
  }

  lemma ValidValuesFitOnLines(c: SetupConfig)
    requires c.Valid()
    ensures '\n' !in c.language && '\n' !in c.keyboard && '\n' !in c.timezone && '\n' !in c.username && '\n' !in c.hostname
  {
  }

  /** The reader recovers all six fields of every valid configuration. */
  lemma EncodedConfigIsRead(c: SetupConfig)
    requires c.Valid()
    ensures Decode(c.Encode()) == Some(c)
  {
    ValidValuesFitOnLines(c);
    PairsAreRead(c.Pairs());
    assert ParseProfile(c.profile.AsStr()) == Some(c.profile);
  }

  /** So two valid configurations with the same text are the same. */
  lemma EncodeIsInjective(a: SetupConfig, b: SetupConfig)
    requires a.Valid() && b.Valid() && a.Encode() == b.Encode()
    ensures a == b
  {
    EncodedConfigIsRead(a);
    EncodedConfigIsRead(b);
  }

  // ---------------------------------------------------------------------
  // Agreement with the installer
  // ---------------------------------------------------------------------

  /** The text the installer writes into the installed system. */
  function Marker(s: InstallSettings): string {
    Line(("version", "1")) + Line(("language", s.locale)) + Line(("keyboard", s.keyboard)) + Line(("timezone", s.timezone))
      + Line(("username", s.username)) + Line(("hostname", s.hostname)) + Line(("profile", s.profile.AsStr()))
  }

  function AsSetup(s: InstallSettings): SetupConfig {
    SetupConfig(s.locale, s.keyboard, s.timezone, s.username, s.hostname, s.profile)
  }

  lemma {:induction false} PrintSnoc(pairs: seq<(string, string)>, last: (string, string))
    ensures Print(pairs + [last]) == Print(pairs) + Line(last)
  {
    if pairs == [] {
      assert Print([last]) == Line(last);
    } else {
      assert (pairs + [last])[1..] == pairs[1..] + [last];
      PrintSnoc(pairs[1..], last);
    }
  }

  lemma SevenLines(p: seq<(string, string)>)
    requires |p| == 7
    ensures Print(p) == Line(p[0]) + Line(p[1]) + Line(p[2]) + Line(p[3]) + Line(p[4]) + Line(p[5]) + Line(p[6])
  {
    forall n | 0 <= n < 7 ensures Print(p[..n + 1]) == Print(p[..n]) + Line(p[n]) {
      assert p[..n + 1] == p[..n] + [p[n]];
      PrintSnoc(p[..n], p[n]);
    }
    assert p[..0] == [] && p[..7] == p;
    var lines := [Print(p[..1]), Print(p[..2]), Print(p[..3]), Print(p[..4]), Print(p[..5]), Print(p[..6])];
    assert lines[0] == Line(p[0]);
  }

  /** The marker is character for character the text first boot would write for the same values. */
  lemma MarkerIsTheEncoding(s: InstallSettings)
    ensures Marker(s) == AsSetup(s).Encode()
  {
    SevenLines(AsSetup(s).Pairs());
  }

  /** The two validations differ in one account name, which only the installer reserves. */
  lemma InstallerAcceptsLess(s: InstallSettings)
    ensures s.Fault().None? <==> AsSetup(s).Valid() && s.username != "devcore-live"
  {
  }

  /** Whatever the installer accepts, first boot reads back from its marker. */
  lemma MarkerIsRead(s: InstallSettings)
    requires s.Fault().None?
    ensures Decode(Marker(s)) == Some(AsSetup(s)) && AsSetup(s).Valid()
  {
    InstallerAcceptsLess(s);
    MarkerIsTheEncoding(s);
    EncodedConfigIsRead(AsSetup(s));
  }
}
