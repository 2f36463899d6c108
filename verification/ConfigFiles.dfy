/** bridges.conf and portals.conf: one entry a line, fields separated by white space. */
module ConfigFiles {
  import opened Options
  import opened Text

  /** The loop skips a line that is blank or a comment. */
  predicate Skipped(line: string) {
    var trimmed := TrimSpace(line);
    trimmed == "" || trimmed[0] == '#'
  }

  /** Fields a line can carry without being taken for a comment. */
  predicate Writable(fields: seq<string>) {
    fields != [] && AllTokens(fields) && fields[0][0] != '#'
  }

  lemma LineOfFields(fields: seq<string>)
    requires Writable(fields)
    ensures !Skipped(Join(fields)) && Fields(TrimSpace(Join(fields))) == fields && OneLine(Join(fields))
  {
    FieldsOfJoin(fields);
    FieldsOfTrimmed(Join(fields));
    JoinedTokensAreOneLine(fields);
  }

  lemma FieldsOfKeptLine(line: string)
    requires !Skipped(line)
    ensures Writable(Fields(TrimSpace(line)))
  {
    FieldsOfTrimmed(line);
  }

  // ---------- bridges.conf ----------

  datatype Bridge = Bridge(name: string, description: string, members: seq<string>)

  /** strings.ReplaceAll on single characters. */
  function Replace(s: string, from: char, to: char): (r: string)
    ensures |r| == |s| && forall i :: 0 <= i < |s| ==> r[i] == if s[i] == from then to else s[i]
  {
    if s == "" then "" else [if s[0] == from then to else s[0]] + Replace(s[1..], from, to)
  }

  function BridgeOfFields(fields: seq<string>): Bridge
    requires fields != []
  {
    Bridge(fields[0],
           if |fields| == 1 || fields[1] == "-" then "" else Replace(fields[1], '_', ' '),
           if |fields| <= 2 then [] else fields[2..])
  }

  function FieldsOfBridge(b: Bridge): seq<string> {
    [b.name, if b.description == "" then "-" else Replace(b.description, ' ', '_')] + b.members
  }

  function ParseBridgeLine(line: string): seq<Bridge> {
    if Skipped(line) then []
    else
      FieldsOfTrimmed(line);
      [BridgeOfFields(Fields(TrimSpace(line)))]
  }

  function ParseBridgeLines(lines: seq<string>): seq<Bridge> {
    if lines == [] then [] else ParseBridgeLines(lines[..|lines| - 1]) + ParseBridgeLine(lines[|lines| - 1])
  }

  function ParseBridges(text: string): seq<Bridge> {
    ParseBridgeLines(Lines(text))
  }

  function BridgeLines(bs: seq<Bridge>): seq<string> {
    seq(|bs|, i requires 0 <= i < |bs| => Join(FieldsOfBridge(bs[i])))
  }

  function PrintBridges(bs: seq<Bridge>): string {
    Unlines(BridgeLines(bs))
  }

  /** What the file can hold: the description's only white space is the blank, written as an underscore. */
  predicate BridgeStorable(b: Bridge) {
    && IsToken(b.name) && b.name[0] != '#' && AllTokens(b.members)
    && b.description != "-"
    && forall i :: 0 <= i < |b.description| ==>
         b.description[i] != '_' && (IsSpace(b.description[i]) ==> b.description[i] == ' ')
  }

  lemma ParsedBridgeIsStorable(line: string)
    requires !Skipped(line)
    ensures BridgeStorable(ParseBridgeLine(line)[0])
  {
    FieldsOfKeptLine(line);
  }

  lemma StorableBridgeRoundTrips(b: Bridge)
    requires BridgeStorable(b)
    ensures ParseBridgeLine(Join(FieldsOfBridge(b))) == [b] && OneLine(Join(FieldsOfBridge(b)))
  {
    var fields := FieldsOfBridge(b);
    assert fields[2..] == b.members;
    assert IsToken(fields[1]);
    assert Writable(fields);
    LineOfFields(fields);
    if b.description != "" {
      assert Replace(fields[1], '_', ' ') == b.description;
      if |b.description| == 1 {
        assert b.description == [b.description[0]];
      }
    }
  }

  lemma {:induction false} ParsedBridgesAreStorable(lines: seq<string>)
    ensures forall i :: 0 <= i < |ParseBridgeLines(lines)| ==> BridgeStorable(ParseBridgeLines(lines)[i])
  {
    if lines != [] {
      ParsedBridgesAreStorable(lines[..|lines| - 1]);
      if !Skipped(lines[|lines| - 1]) {
        ParsedBridgeIsStorable(lines[|lines| - 1]);
      }
    }
  }

  lemma {:induction false} StorableBridgesRoundTrip(bs: seq<Bridge>)
    requires forall i :: 0 <= i < |bs| ==> BridgeStorable(bs[i])
    ensures ParseBridgeLines(BridgeLines(bs)) == bs
    ensures forall i :: 0 <= i < |bs| ==> OneLine(BridgeLines(bs)[i])
  {
    hide ParseBridgeLine, FieldsOfBridge, BridgeStorable;
    if bs != [] {
      var init, last := bs[..|bs| - 1], bs[|bs| - 1];
      StorableBridgesRoundTrip(init);
      StorableBridgeRoundTrips(last);
      assert BridgeLines(bs)[..|bs| - 1] == BridgeLines(init);
      forall i | 0 <= i < |bs|
        ensures OneLine(BridgeLines(bs)[i])
      {
        if i < |bs| - 1 {
          assert BridgeLines(bs)[i] == BridgeLines(init)[i];
        }
      }
    }
  }

  /** Writing bridges and reading them back gives the same bridges exactly when each is storable. */
  lemma BridgesRoundTripIff(bs: seq<Bridge>)
    ensures ParseBridges(PrintBridges(bs)) == bs <==> forall i :: 0 <= i < |bs| ==> BridgeStorable(bs[i])
  {
    ParsedBridgesAreStorable(Lines(PrintBridges(bs)));
    if forall i :: 0 <= i < |bs| ==> BridgeStorable(bs[i]) {
      StorableBridgesRoundTrip(bs);
      LinesOfUnlines(BridgeLines(bs));
    }
  }

  /** Whatever the file holds, rewriting what was read loses nothing more: parse, print, parse equals parse. */
  lemma RewritingBridgesIsStable(text: string)
    ensures ParseBridges(PrintBridges(ParseBridges(text))) == ParseBridges(text)
  {
    ParsedBridgesAreStorable(Lines(text));
    BridgesRoundTripIff(ParseBridges(text));
  }

  method ReadBridgesConfig(text: string) returns (entries: seq<Bridge>)
    ensures entries == ParseBridges(text)
  {
    entries := [];
    var lines := Lines(text);
    for i := 0 to |lines|
      invariant entries == ParseBridgeLines(lines[..i])
    {
      assert lines[..i + 1][..i] == lines[..i];
      var line := TrimSpace(lines[i]);
      if line == "" || line[0] == '#' {
        continue;
      }
      FieldsOfTrimmed(lines[i]);
      var parts := Fields(line);
      var entry := Bridge(parts[0], "", []);
      var rest := parts[1..];
      if |rest| > 0 {
        if rest[0] == "-" {
          entry := entry.(description := "");
        } else {
          entry := entry.(description := Replace(rest[0], '_', ' '));
        }
        rest := rest[1..];
      }
      if |rest| > 0 {
        entry := entry.(members := rest);
      }
      entries := entries + [entry];
    }
    assert lines[..|lines|] == lines;
  }

  lemma JoinOfHeadAndMembers(name: string, desc: string, members: seq<string>)
    ensures Join([name, desc] + members) ==
            if members == [] then name + " " + desc else name + " " + desc + " " + Join(members)
  {
    var fields := [name, desc] + members;
    assert fields[1..] == [desc] + members && fields[1..][1..] == members;
    if members == [] {
      assert Join(fields[1..]) == desc;
    } else {
      assert Join(fields[1..]) == desc + " " + Join(members);
      assert name + " " + (desc + " " + Join(members)) == name + " " + desc + " " + Join(members);
    }
  }

  /** A bridge's line: its name, its description with underscores for blanks or a dash, and its members. */
  lemma BridgeLineLaw(b: Bridge)
    ensures var description := if b.description == "" then "-" else Replace(b.description, ' ', '_');
            BridgeLines([b]) ==
            [if b.members == [] then b.name + " " + description
             else b.name + " " + description + " " + Join(b.members)]
  {
    JoinOfHeadAndMembers(b.name, if b.description == "" then "-" else Replace(b.description, ' ', '_'), b.members);
  }

  /** What a line is read as: blank lines and comments as nothing, the first field as the name, the second as
      the description, in which a dash is none and an underscore a blank, and the rest as the members. */
  lemma BridgeFieldsLaw(line: string)
    ensures TrimSpace(line) == "" || TrimSpace(line)[0] == '#' ==> ParseBridgeLine(line) == []
    ensures TrimSpace(line) != "" && TrimSpace(line)[0] != '#' ==>
              var f := Fields(line);
              && |f| > 0 && |ParseBridgeLine(line)| == 1
              && var b := ParseBridgeLine(line)[0];
                 && b.name == f[0]
                 && b.description == (if |f| < 2 || f[1] == "-" then "" else Replace(f[1], '_', ' '))
                 && b.members == (if |f| < 3 then [] else f[2..])
  {
    FieldsOfTrimmed(line);
  }

  method WriteBridgesConfig(entries: seq<Bridge>) returns (text: string)
    ensures text == PrintBridges(entries)
  {
    text := "";
    for i := 0 to |entries|
      invariant text == Unlines(BridgeLines(entries)[..i])
    {
      var e := entries[i];
      var desc := "-";
      if e.description != "" {
        desc := Replace(e.description, ' ', '_');
      }
      var line := e.name + " " + desc;
      if |e.members| > 0 {
        line := line + " " + Join(e.members);
      }
      assert line == BridgeLines(entries)[i] by {
        JoinOfHeadAndMembers(e.name, desc, e.members);
      }
      UnlinesOfAppend(BridgeLines(entries)[..i], line);
      assert BridgeLines(entries)[..i + 1] == BridgeLines(entries)[..i] + [line];
      text := text + line + "\n";
    }
    assert BridgeLines(entries)[..|entries|] == BridgeLines(entries);
  }

  // ---------- portals.conf ----------

  datatype Portal = Portal(
    iface: string, cidr: string, dhcpStart: string, dhcpEnd: string, lease: string, enabled: bool, antiHotspot: bool)

  function PortalOfFields(fields: seq<string>): Portal
    requires |fields| >= 6
  {
    Portal(fields[0], fields[1], fields[2], fields[3], fields[4], fields[5] == "enabled",
           |fields| >= 7 && fields[6] == "anti_hotspot_on")
  }

  function FieldsOfPortal(p: Portal): seq<string> {
    [p.iface, p.cidr, p.dhcpStart, p.dhcpEnd, p.lease,
     if p.enabled then "enabled" else "disabled",
     if p.antiHotspot then "anti_hotspot_on" else "anti_hotspot_off"]
  }

  function ParsePortalLine(line: string): seq<Portal> {
    if Skipped(line) || |Fields(TrimSpace(line))| < 6 then [] else [PortalOfFields(Fields(TrimSpace(line)))]
  }

  function ParsePortalLines(lines: seq<string>): seq<Portal> {
    if lines == [] then [] else ParsePortalLines(lines[..|lines| - 1]) + ParsePortalLine(lines[|lines| - 1])
  }

  function ParsePortals(text: string): seq<Portal> {
    ParsePortalLines(Lines(text))
  }

  function PortalLines(ps: seq<Portal>): seq<string> {
    seq(|ps|, i requires 0 <= i < |ps| => Join(FieldsOfPortal(ps[i])))
  }

  function PrintPortals(ps: seq<Portal>): string {
    Unlines(PortalLines(ps))
  }

  predicate PortalStorable(p: Portal) {
    && IsToken(p.iface) && p.iface[0] != '#' && IsToken(p.cidr)
    && IsToken(p.dhcpStart) && IsToken(p.dhcpEnd) && IsToken(p.lease)
  }

  predicate AllStorable(ps: seq<Portal>) {
    forall i :: 0 <= i < |ps| ==> PortalStorable(ps[i])
  }

  lemma {:induction false} ParsedPortalsAreStorable(lines: seq<string>)
    ensures AllStorable(ParsePortalLines(lines))
  {
    if lines != [] {
      ParsedPortalsAreStorable(lines[..|lines| - 1]);
      if !Skipped(lines[|lines| - 1]) {
        FieldsOfKeptLine(lines[|lines| - 1]);
      }
    }
  }

  lemma StorablePortalRoundTrips(p: Portal)
    requires PortalStorable(p)
    ensures ParsePortalLine(Join(FieldsOfPortal(p))) == [p] && OneLine(Join(FieldsOfPortal(p)))
  {
    WordsAreTokens();
    var fields := FieldsOfPortal(p);
    assert AllTokens(fields);
    LineOfFields(fields);
    assert PortalOfFields(fields) == p;
  }

  lemma WordsAreTokens()
    ensures IsToken("enabled") && IsToken("disabled") && IsToken("anti_hotspot_on") && IsToken("anti_hotspot_off")
    ensures "disabled" != "enabled" && "anti_hotspot_off" != "anti_hotspot_on"
  {
    assert |"disabled"| != |"enabled"| && |"anti_hotspot_off"| != |"anti_hotspot_on"|;
  }

  lemma {:induction false} StorablePortalsRoundTrip(ps: seq<Portal>)
    requires AllStorable(ps)
    ensures ParsePortalLines(PortalLines(ps)) == ps
    ensures forall i :: 0 <= i < |ps| ==> OneLine(PortalLines(ps)[i])
  {
    hide ParsePortalLine, FieldsOfPortal, PortalStorable;
    if ps != [] {
      var init, last := ps[..|ps| - 1], ps[|ps| - 1];
      StorablePortalsRoundTrip(init);
      StorablePortalRoundTrips(last);
      assert PortalLines(ps)[..|ps| - 1] == PortalLines(init);
      forall i | 0 <= i < |ps|
        ensures OneLine(PortalLines(ps)[i])
      {
        if i < |ps| - 1 {
          assert PortalLines(ps)[i] == PortalLines(init)[i];
        }
      }
    }
  }

  /** Writing portals and reading them back gives the same portals exactly when every text field is a
      token and no interface name starts a comment. */
  lemma PortalsRoundTripIff(ps: seq<Portal>)
    ensures ParsePortals(PrintPortals(ps)) == ps <==> AllStorable(ps)
  {
    ParsedPortalsAreStorable(Lines(PrintPortals(ps)));
    if AllStorable(ps) {
      StorablePortalsRoundTrip(ps);
      LinesOfUnlines(PortalLines(ps));
    }
  }

  method ReadPortalConfig(text: string) returns (entries: seq<Portal>)
    ensures entries == ParsePortals(text)
  {
    entries := [];
    var lines := Lines(text);
    for i := 0 to |lines|
      invariant entries == ParsePortalLines(lines[..i])
    {
      assert lines[..i + 1][..i] == lines[..i];
      var line := TrimSpace(lines[i]);
      if line == "" || line[0] == '#' {
        continue;
      }
      var parts := Fields(line);
      if |parts| < 6 {
        continue;
      }
      var entry := Portal(parts[0], parts[1], parts[2], parts[3], parts[4], parts[5] == "enabled", false);
      if |parts| >= 7 {
        entry := entry.(antiHotspot := parts[6] == "anti_hotspot_on");
      }
      entries := entries + [entry];
    }
    assert lines[..|lines|] == lines;
  }

  method WritePortalConfig(entries: seq<Portal>) returns (text: string)
    ensures text == PrintPortals(entries)
  {
    text := "";
    for i := 0 to |entries|
      invariant text == Unlines(PortalLines(entries)[..i])
    {
      var line := Join(FieldsOfPortal(entries[i]));
      UnlinesOfAppend(PortalLines(entries)[..i], line);
      assert PortalLines(entries)[..i + 1] == PortalLines(entries)[..i] + [line];
      text := text + line + "\n";
    }
    assert PortalLines(entries)[..|entries|] == PortalLines(entries);
  }

  /** A portal's line: its seven columns in their order. */
  lemma PortalLineLaw(p: Portal)
    ensures var enabled := if p.enabled then "enabled" else "disabled";
            var antiHotspot := if p.antiHotspot then "anti_hotspot_on" else "anti_hotspot_off";
            PortalLines([p]) ==
            [p.iface + " " + (p.cidr + " " + (p.dhcpStart + " " + (p.dhcpEnd + " " + (p.lease + " "
             + (enabled + " " + antiHotspot)))))]
  {
    JoinOfSeven(FieldsOfPortal(p));
  }

  lemma JoinOfSeven(f: seq<string>)
    requires |f| == 7
    ensures Join(f) ==
            f[0] + " " + (f[1] + " " + (f[2] + " " + (f[3] + " " + (f[4] + " " + (f[5] + " " + f[6])))))
  {
    JoinStep(f, 0);
    JoinStep(f, 1);
    JoinStep(f, 2);
    JoinStep(f, 3);
    JoinStep(f, 4);
    JoinStep(f, 5);
    assert f[0..] == f && Join(f[6..]) == f[6];
    hide Join;
  }

  lemma JoinStep(f: seq<string>, i: nat)
    requires i + 1 < |f|
    ensures Join(f[i..]) == f[i] + " " + Join(f[i + 1..])
  {
    assert f[i..][1..] == f[i + 1..];
  }

  /** What a line is read as: blank lines, comments and lines of fewer than six columns as nothing, and the
      columns as they stand; the two flags are on for exactly one word each, and the last column may be missing. */
  lemma PortalFieldsLaw(line: string)
    ensures var f := Fields(line);
            if TrimSpace(line) == "" || TrimSpace(line)[0] == '#' || |f| < 6 then ParsePortalLine(line) == []
            else ParsePortalLine(line) ==
                 [Portal(f[0], f[1], f[2], f[3], f[4], f[5] == "enabled", |f| >= 7 && f[6] == "anti_hotspot_on")]
  {
    FieldsOfTrimmed(line);
  }

  /** The first entry of that interface. */
  function FindPortal(ps: seq<Portal>, iface: string): Option<Portal> {
    if ps == [] then None else if ps[0].iface == iface then Some(ps[0]) else FindPortal(ps[1..], iface)
  }

  function UpsertPortal(ps: seq<Portal>, p: Portal): seq<Portal> {
    if ps == [] then [p] else if ps[0].iface == p.iface then [p] + ps[1..] else [ps[0]] + UpsertPortal(ps[1..], p)
  }

  /** After an upsert the interface has the new entry and every other interface what it had. */
  lemma {:induction false} UpsertSetsOneInterface(ps: seq<Portal>, p: Portal, iface: string)
    ensures FindPortal(UpsertPortal(ps, p), iface) == if iface == p.iface then Some(p) else FindPortal(ps, iface)
  {
    if ps != [] && ps[0].iface != p.iface {
      UpsertSetsOneInterface(ps[1..], p, iface);
    }
  }

  /** The position of the first entry of that interface, or the length when there is none. */
  function PositionOf(ps: seq<Portal>, iface: string): (i: nat)
    ensures i <= |ps| && (i < |ps| ==> ps[i].iface == iface)
    ensures forall j :: 0 <= j < i ==> ps[j].iface != iface
  {
    if ps == [] || ps[0].iface == iface then 0 else 1 + PositionOf(ps[1..], iface)
  }

  /** An upsert replaces the first entry of that interface in its place, or appends the entry. */
  lemma {:induction false} UpsertShape(ps: seq<Portal>, p: Portal)
    ensures var i := PositionOf(ps, p.iface);
            UpsertPortal(ps, p) == if i < |ps| then ps[i := p] else ps + [p]
  {
    if ps != [] && ps[0].iface != p.iface {
      UpsertShape(ps[1..], p);
      var i := PositionOf(ps[1..], p.iface);
      if i < |ps| - 1 {
        assert ps[i + 1 := p] == [ps[0]] + ps[1..][i := p];
      } else {
        assert ps + [p] == [ps[0]] + (ps[1..] + [p]);
      }
    }
  }

  lemma {:induction false} UpsertStorableIff(ps: seq<Portal>, p: Portal)
    requires AllStorable(ps)
    ensures AllStorable(UpsertPortal(ps, p)) <==> PortalStorable(p)
  {
    hide PortalStorable;
    if ps == [] || ps[0].iface == p.iface {
      assert UpsertPortal(ps, p)[0] == p;
    } else {
      UpsertStorableIff(ps[1..], p);
      var rest := UpsertPortal(ps[1..], p);
      assert UpsertPortal(ps, p)[1..] == rest;
      assert forall i :: 0 <= i < |rest| ==> rest[i] == UpsertPortal(ps, p)[i + 1];
    }
  }

  /** The file behind the portal handlers. */
  class PortalFile {
    var text: string

    constructor (contents: string)
      ensures text == contents
    {
      text := contents;
    }

    /** Read, replace or append, rewrite: the file reads back with exactly this one entry set, if and only
        if the entry is storable. */
    method WritePortalConfigEntry(entry: Portal)
      modifies this
      ensures text == PrintPortals(UpsertPortal(ParsePortals(old(text)), entry))
      ensures ParsePortals(text) == UpsertPortal(ParsePortals(old(text)), entry) <==> PortalStorable(entry)
    {
      hide PortalStorable;
      var entries := ReadPortalConfig(text);
      ParsedPortalsAreStorable(Lines(text));
      UpsertStorableIff(entries, entry);
      entries := Upsert(entries, entry);
      PortalsRoundTripIff(entries);
      text := WritePortalConfig(entries);
    }
  }

  lemma UpsertFromPosition(ps: seq<Portal>, i: nat, p: Portal)
    requires i < |ps|
    ensures ps[i].iface == p.iface ==> ps[..i] + UpsertPortal(ps[i..], p) == ps[i := p]
    ensures ps[i].iface != p.iface ==> ps[..i] + UpsertPortal(ps[i..], p) == ps[..i + 1] + UpsertPortal(ps[i + 1..], p)
  {
    assert ps[i..][1..] == ps[i + 1..];
    if ps[i].iface != p.iface {
      assert ps[..i + 1] == ps[..i] + [ps[i]];
    }
  }

  /** The search for the interface, replacing in place or appending. */
  method Upsert(before: seq<Portal>, entry: Portal) returns (entries: seq<Portal>)
    ensures entries == UpsertPortal(before, entry)
  {
    entries := before;
    for i := 0 to |before|
      invariant entries == before && before[..i] + UpsertPortal(before[i..], entry) == UpsertPortal(before, entry)
    {
      UpsertFromPosition(before, i, entry);
      if entries[i].iface == entry.iface {
        entries := entries[i := entry];
        return;
      }
    }
    assert before[..|before|] == before && before[|before|..] == [];
    entries := entries + [entry];
  }
}
