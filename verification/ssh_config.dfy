/**
 Reading host profiles from an OpenSSH client configuration. The control plane and the dashboard carry two
 copies of this parser; they differ in how they treat port numbers and in the identity file.
 The input is the list of directives the line patterns recognise, in order.
 */
module SshConfig {
  import opened Options

  /** The number a Port value reads as. */
  datatype PortValue = NotANumber | Infinite | Number(value: real)

  datatype Directive =
    | Host(patterns: seq<string>)
    | HostName(name: string)
    | User(name: string)
    | Port(port: PortValue)
    | IdentityFile(path: string)
    | LocalForward(ports: Option<(nat, nat)>)
    | Other

  datatype Block = Block(aliases: seq<string>, hostName: Option<string>, user: Option<string>, port: Option<PortValue>,
                         identityFile: Option<string>, forward: Option<nat>, controller: Option<nat>)

  datatype Profile = Profile(alias: string, hostName: string, user: Option<string>, port: PortValue,
                             identityFile: Option<string>, forwardPort: nat, controllerPort: nat, target: string)

  const DEFAULT_FORWARD_PORT: nat := 14_800
  const DEFAULT_CONTROLLER_PORT: nat := 4_800
  const SSH_PORT := Number(22.0)

  /** Which copy of the parser. */
  datatype Copy = ControlPlane | Dashboard

  predicate Concrete(pattern: string) {
    pattern != "" && '*' !in pattern && '?' !in pattern && '!' !in pattern
  }

  function Aliases(patterns: seq<string>): (aliases: seq<string>)
    ensures forall a :: a in aliases <==> a in patterns && Concrete(a)
  {
    if patterns == [] then []
    else
      assert patterns == [patterns[0]] + patterns[1..];
      (if Concrete(patterns[0]) then [patterns[0]] else []) + Aliases(patterns[1..])
  }

  /** The aliases are the patterns without wildcards or negation, in their order and as often as they occur. */
  lemma {:induction false} AliasesFilter(ps: seq<string>, qs: seq<string>, pattern: string)
    ensures Aliases(ps + qs) == Aliases(ps) + Aliases(qs)
    ensures Aliases([pattern]) == if pattern == "" || (exists c <- pattern :: c in "*?!") then [] else [pattern]
    decreases |ps|
  {
    assert [pattern][1..] == [];
    if ps == [] {
      assert ps + qs == qs;
    } else {
      AliasesFilter(ps[1..], qs, pattern);
      assert (ps + qs)[1..] == ps[1..] + qs;
    }
  }

  predicate ValidPort(p: PortValue) {
    p.Number? && 0.0 < p.value <= 65535.0
  }

  predicate ReadsAsDefault(p: PortValue) {
    p.NotANumber? || p == Number(0.0)
  }

  function SetPort(copy: Copy, b: Block, p: PortValue): Block {
    match copy
    case ControlPlane => if ValidPort(p) then b.(port := Some(p)) else b
    case Dashboard => b.(port := Some(if ReadsAsDefault(p) then SSH_PORT else p))
  }

  /** The effect of a directive on the block it stands under. */
  function SetField(copy: Copy, b: Block, d: Directive): Block {
    match d
    case HostName(name) => b.(hostName := Some(name))
    case User(name) => b.(user := Some(name))
    case Port(p) => SetPort(copy, b, p)
    case IdentityFile(path) => if copy.ControlPlane? then b.(identityFile := Some(path)) else b
    case LocalForward(Some((local, remote))) => b.(forward := Some(local), controller := Some(remote))
    case _ => b
  }

  /** The blocks so far, and whether directives go to the last of them. */
  datatype Scan = Scan(blocks: seq<Block>, open: bool)

  function NewBlock(aliases: seq<string>): Block {
    Block(aliases, None, None, None, None, None, None)
  }

  function ScanOne(copy: Copy, s: Scan, d: Directive): Scan {
    if d.Host? then
      var aliases := Aliases(d.patterns);
      if aliases == [] then Scan(s.blocks, false) else Scan(s.blocks + [NewBlock(aliases)], true)
    else if s.open && s.blocks != [] then
      Scan(s.blocks[..|s.blocks| - 1] + [SetField(copy, s.blocks[|s.blocks| - 1], d)], true)
    else s
  }

  function ScanAll(copy: Copy, ds: seq<Directive>): Scan {
    if ds == [] then Scan([], false) else ScanOne(copy, ScanAll(copy, ds[..|ds| - 1]), ds[|ds| - 1])
  }

  function MakeProfile(b: Block, alias: string, defaultForward: nat, defaultController: nat): Profile {
    Profile(alias,
            if b.hostName.Some? && b.hostName.value != "" then b.hostName.value else alias,
            b.user,
            if b.port.Some? then b.port.value else SSH_PORT,
            b.identityFile,
            if b.forward.Some? then b.forward.value else defaultForward,
            if b.controller.Some? then b.controller.value else defaultController,
            if b.user.Some? && b.user.value != "" then b.user.value + "@" + alias else alias)
  }

  /** One entry per alias, in order, with the block it came from. */
  function Owners(blocks: seq<Block>): seq<(Block, string)> {
    if blocks == [] then []
    else
      var b := blocks[|blocks| - 1];
      Owners(blocks[..|blocks| - 1]) + seq(|b.aliases|, k requires 0 <= k < |b.aliases| => (b, b.aliases[k]))
  }

  function ProfilesOf(o: seq<(Block, string)>, base: nat, controller: nat): seq<Profile> {
    seq(|o|, k requires 0 <= k < |o| => MakeProfile(o[k].0, o[k].1, base + k, controller))
  }

  /** The `k`-th alias of the file becomes the `k`-th profile, with the `k`-th default forward port. */
  function Profiles(blocks: seq<Block>, base: nat, controller: nat): seq<Profile> {
    ProfilesOf(Owners(blocks), base, controller)
  }

  lemma ProfilesSnoc(o: seq<(Block, string)>, k: nat, base: nat, controller: nat)
    requires k < |o|
    ensures ProfilesOf(o[..k + 1], base, controller) ==
            ProfilesOf(o[..k], base, controller) + [MakeProfile(o[k].0, o[k].1, base + k, controller)]
  {
  }

  // ----- The two programs -----

  method CollectBlocks(copy: Copy, ds: seq<Directive>) returns (blocks: seq<Block>)
    ensures blocks == ScanAll(copy, ds).blocks
  {
    blocks := [];
    var open := false;
    for k := 0 to |ds|
      invariant Scan(blocks, open) == ScanAll(copy, ds[..k])
    {
      assert ds[..k + 1][..k] == ds[..k];
      var d := ds[k];
      if d.Host? {
        var aliases := Aliases(d.patterns);
        open := aliases != [];
        if open {
          blocks := blocks + [NewBlock(aliases)];
        }
      } else if open && blocks != [] {
        blocks := blocks[..|blocks| - 1] + [SetField(copy, blocks[|blocks| - 1], d)];
      }
    }
    assert ds[..|ds|] == ds;
  }

  method EmitProfiles(blocks: seq<Block>, base: nat, controller: nat) returns (profiles: seq<Profile>)
    ensures profiles == Profiles(blocks, base, controller)
  {
    profiles := [];
    var idx := 0;
    for n := 0 to |blocks|
      invariant profiles == Profiles(blocks[..n], base, controller) && idx == |profiles|
    {
      var b := blocks[n];
      assert blocks[..n + 1][..n] == blocks[..n] && blocks[..n + 1][n] == b;
      ghost var before, after := Owners(blocks[..n]), Owners(blocks[..n + 1]);
      assert after[..|before|] == before;
      for k := 0 to |b.aliases|
        invariant idx == |before| + k && |after| == |before| + |b.aliases|
        invariant profiles == ProfilesOf(after[..idx], base, controller)
      {
        ProfilesSnoc(after, idx, base, controller);
        profiles := profiles + [MakeProfile(b, b.aliases[k], base + idx, controller)];
        idx := idx + 1;
      }
      assert after[..idx] == after;
    }
    assert blocks[..|blocks|] == blocks;
  }

  method ParseSshConfigText(ds: seq<Directive>, base: Option<nat>, controller: Option<nat>) returns (profiles: seq<Profile>)
    ensures profiles == Profiles(ScanAll(ControlPlane, ds).blocks,
                                 if base.Some? then base.value else DEFAULT_FORWARD_PORT,
                                 if controller.Some? then controller.value else DEFAULT_CONTROLLER_PORT)
    ensures Describe(profiles, ControlPlane, ds, if base.Some? then base.value else 14_800, if controller.Some? then controller.value else 4_800)
  {
    ProfilesAreHomes(ControlPlane, ds, if base.Some? then base.value else 14_800, if controller.Some? then controller.value else 4_800);
    var blocks := CollectBlocks(ControlPlane, ds);
    profiles := EmitProfiles(blocks, if base.Some? then base.value else DEFAULT_FORWARD_PORT,
                             if controller.Some? then controller.value else DEFAULT_CONTROLLER_PORT);
  }

  method ParseSimpleSshConfig(ds: seq<Directive>) returns (profiles: seq<Profile>)
    ensures profiles == Profiles(ScanAll(Dashboard, ds).blocks, DEFAULT_FORWARD_PORT, DEFAULT_CONTROLLER_PORT)
    ensures Describe(profiles, Dashboard, ds, 14_800, 4_800)
  {
    ProfilesAreHomes(Dashboard, ds, 14_800, 4_800);
    var blocks := CollectBlocks(Dashboard, ds);
    profiles := EmitProfiles(blocks, DEFAULT_FORWARD_PORT, DEFAULT_CONTROLLER_PORT);
  }

  // ----- What the profiles are -----

  /** All concrete aliases of the file, in order. */
  function AllAliases(ds: seq<Directive>): seq<string> {
    if ds == [] then []
    else AllAliases(ds[..|ds| - 1]) + if ds[|ds| - 1].Host? then Aliases(ds[|ds| - 1].patterns) else []
  }

  function Names(blocks: seq<Block>): seq<string> {
    seq(|Owners(blocks)|, k requires 0 <= k < |Owners(blocks)| => Owners(blocks)[k].1)
  }

  lemma NamesAppend(blocks: seq<Block>, b: Block)
    ensures Names(blocks + [b]) == Names(blocks) + b.aliases
  {
    assert (blocks + [b])[..|blocks|] == blocks;
  }

  lemma FieldKeepsAliases(copy: Copy, b: Block, d: Directive)
    ensures SetField(copy, b, d).aliases == b.aliases
  {
  }

  /** Profiles correspond one to one, in order, to the concrete aliases. */
  lemma {:induction false} NamesAreAliases(copy: Copy, ds: seq<Directive>)
    ensures Names(ScanAll(copy, ds).blocks) == AllAliases(ds)
  {
    if ds != [] {
      var s, d := ScanAll(copy, ds[..|ds| - 1]), ds[|ds| - 1];
      NamesAreAliases(copy, ds[..|ds| - 1]);
      if d.Host? {
        NamesAppend(s.blocks, NewBlock(Aliases(d.patterns)));
      } else if s.open && s.blocks != [] {
        var init, last := s.blocks[..|s.blocks| - 1], s.blocks[|s.blocks| - 1];
        assert s.blocks == init + [last];
        NamesAppend(init, last);
        FieldKeepsAliases(copy, last, d);
        NamesAppend(init, SetField(copy, last, d));
      }
    }
  }

  // ----- Sections: what each field of a profile comes from -----

  /** A Host line with concrete aliases and the directives up to the next Host line. */
  datatype Section = Section(aliases: seq<string>, body: seq<Directive>)

  function Sections(ds: seq<Directive>): seq<Section> {
    if ds == [] then []
    else
      var before, d := Sections(ds[..|ds| - 1]), ds[|ds| - 1];
      if d.Host? then if Aliases(d.patterns) == [] then before else before + [Section(Aliases(d.patterns), [])]
      else if UnderAlias(ds[..|ds| - 1]) && before != [] then
        before[..|before| - 1] + [before[|before| - 1].(body := before[|before| - 1].body + [d])]
      else before
  }

  /** The value of the last directive that has one. */
  function LastOf<T>(body: seq<Directive>, pick: Directive -> Option<T>): Option<T> {
    if body == [] then None
    else if pick(body[|body| - 1]).Some? then pick(body[|body| - 1])
    else LastOf(body[..|body| - 1], pick)
  }

  function PickHostName(d: Directive): Option<string> {
    if d.HostName? then Some(d.name) else None
  }

  function PickUser(d: Directive): Option<string> {
    if d.User? then Some(d.name) else None
  }

  /** The control plane drops a port out of range. */
  function PickValidPort(d: Directive): Option<PortValue> {
    if d.Port? && ValidPort(d.port) then Some(d.port) else None
  }

  /** The dashboard keeps it, unless it is no number or zero. */
  function PickAnyPort(d: Directive): Option<PortValue> {
    if d.Port? then Some(if ReadsAsDefault(d.port) then SSH_PORT else d.port) else None
  }

  function LastPort(copy: Copy, body: seq<Directive>): Option<PortValue> {
    match copy
    case ControlPlane => LastOf(body, PickValidPort)
    case Dashboard => LastOf(body, PickAnyPort)
  }

  function PickIdentity(d: Directive): Option<string> {
    if d.IdentityFile? then Some(d.path) else None
  }

  function PickForward(d: Directive): Option<nat> {
    if d.LocalForward? && d.ports.Some? then Some(d.ports.value.0) else None
  }

  function PickController(d: Directive): Option<nat> {
    if d.LocalForward? && d.ports.Some? then Some(d.ports.value.1) else None
  }

  /** Each field is the last one its section gives; a forward gives both ports at once. */
  function BlockOf(copy: Copy, s: Section): Block {
    Block(s.aliases,
          LastOf(s.body, PickHostName),
          LastOf(s.body, PickUser),
          LastPort(copy, s.body),
          if copy.ControlPlane? then LastOf(s.body, PickIdentity) else None,
          LastOf(s.body, PickForward),
          LastOf(s.body, PickController))
  }

  lemma LastOfSnoc<T>(body: seq<Directive>, d: Directive, pick: Directive -> Option<T>)
    ensures LastOf(body + [d], pick) == if pick(d).Some? then pick(d) else LastOf(body, pick)
  {
    assert (body + [d])[..|body|] == body;
  }

  lemma BlockOfSnoc(copy: Copy, s: Section, d: Directive)
    requires !d.Host?
    ensures BlockOf(copy, s.(body := s.body + [d])) == SetField(copy, BlockOf(copy, s), d)
  {
    LastOfSnoc(s.body, d, PickHostName);
    LastOfSnoc(s.body, d, PickUser);
    LastOfSnoc(s.body, d, PickValidPort);
    LastOfSnoc(s.body, d, PickAnyPort);
    LastOfSnoc(s.body, d, PickIdentity);
    LastOfSnoc(s.body, d, PickForward);
    LastOfSnoc(s.body, d, PickController);
  }

  /** Blocks and sections stand for each other, one by one. */
  predicate Mirrors(copy: Copy, blocks: seq<Block>, sections: seq<Section>) {
    |blocks| == |sections| && forall k :: 0 <= k < |sections| ==> blocks[k] == BlockOf(copy, sections[k])
  }

  lemma MirrorsField(copy: Copy, blocks: seq<Block>, sections: seq<Section>, d: Directive)
    requires Mirrors(copy, blocks, sections) && blocks != [] && !d.Host?
    ensures var n := |blocks| - 1;
            Mirrors(copy, blocks[..n] + [SetField(copy, blocks[n], d)],
                    sections[..n] + [sections[n].(body := sections[n].body + [d])])
  {
    BlockOfSnoc(copy, sections[|blocks| - 1], d);
  }

  lemma MirrorsHost(copy: Copy, blocks: seq<Block>, sections: seq<Section>, aliases: seq<string>)
    requires Mirrors(copy, blocks, sections)
    ensures Mirrors(copy, blocks + [NewBlock(aliases)], sections + [Section(aliases, [])])
  {
  }

  /** The scan reads off the sections of the file. */
  lemma {:induction false} BlocksAreSections(copy: Copy, ds: seq<Directive>)
    ensures Mirrors(copy, ScanAll(copy, ds).blocks, Sections(ds))
  {
    if ds != [] {
      var init, d := ds[..|ds| - 1], ds[|ds| - 1];
      BlocksAreSections(copy, init);
      OpenUnderAlias(copy, init);
      if d.Host? {
        MirrorsHost(copy, ScanAll(copy, init).blocks, Sections(init), Aliases(d.patterns));
      } else if UnderAlias(init) && Sections(init) != [] {
        MirrorsField(copy, ScanAll(copy, init).blocks, Sections(init), d);
      }
    }
  }

  /** Two profiles that both took a default forward port have different ones. */
  lemma DefaultForwardsDiffer(blocks: seq<Block>, base: nat, controller: nat, i: nat, j: nat)
    requires i < j < |Profiles(blocks, base, controller)|
    requires Owners(blocks)[i].0.forward.None? && Owners(blocks)[j].0.forward.None?
    ensures Profiles(blocks, base, controller)[i].forwardPort == base + i
    ensures Profiles(blocks, base, controller)[i].forwardPort != Profiles(blocks, base, controller)[j].forwardPort
  {
  }

  // ----- Directives that have no effect -----

  /** The nearest Host line has a concrete alias. */
  predicate UnderAlias(ds: seq<Directive>) {
    ds != [] && (if ds[|ds| - 1].Host? then Aliases(ds[|ds| - 1].patterns) != [] else UnderAlias(ds[..|ds| - 1]))
  }

  /** The file without wildcard-only Host lines, what stands under them, and what stands before any Host line. */
  function Effective(ds: seq<Directive>): seq<Directive> {
    if ds == [] then [] else Effective(ds[..|ds| - 1]) + if UnderAlias(ds) then [ds[|ds| - 1]] else []
  }

  lemma {:induction false} OpenUnderAlias(copy: Copy, ds: seq<Directive>)
    ensures UnderAlias(ds) <==> ScanAll(copy, ds).open
    ensures UnderAlias(ds) ==> ScanAll(copy, ds).blocks != []
  {
    if ds != [] { OpenUnderAlias(copy, ds[..|ds| - 1]); }
  }

  /** Dropping those directives changes no profile. */
  lemma {:induction false} InertDirectives(copy: Copy, ds: seq<Directive>)
    ensures ScanAll(copy, Effective(ds)).blocks == ScanAll(copy, ds).blocks
    ensures UnderAlias(ds) ==> ScanAll(copy, Effective(ds)).open
  {
    if ds != [] {
      var before, d := ds[..|ds| - 1], ds[|ds| - 1];
      InertDirectives(copy, before);
      OpenUnderAlias(copy, before);
      if UnderAlias(ds) {
        ScanSnoc(copy, Effective(before), d);
      } else {
        assert Effective(ds) == Effective(before);
      }
    }
  }

  lemma ScanSnoc(copy: Copy, ds: seq<Directive>, d: Directive)
    ensures ScanAll(copy, ds + [d]) == ScanOne(copy, ScanAll(copy, ds), d)
  {
    assert (ds + [d])[..|ds|] == ds;
  }

  // ----- Exactly when the copies agree -----

  /** A profile without the identity file, which only the control plane reads. */
  function Shared(p: Profile): Profile {
    p.(identityFile := None)
  }

  function RawPort(d: Directive): Option<PortValue> {
    if d.Port? then Some(d.port) else None
  }

  /** The section's last port is in range, or reads as the default and no other port was accepted before it. */
  predicate PortsAgree(body: seq<Directive>) {
    var last, accepted := LastOf(body, RawPort), LastOf(body, PickValidPort);
    || last.None?
    || ValidPort(last.value)
    || (ReadsAsDefault(last.value) && (accepted.None? || accepted.value == SSH_PORT))
  }

  lemma {:induction false} PortsByCopy(body: seq<Directive>)
    ensures var last, accepted := LastOf(body, RawPort), LastPort(ControlPlane, body);
            && LastPort(Dashboard, body) ==
               (if last.None? then None else Some(if ReadsAsDefault(last.value) then SSH_PORT else last.value))
            && (last.None? || ValidPort(last.value) ==> accepted == last)
            && (accepted.Some? ==> ValidPort(accepted.value))
  {
    if body != [] { PortsByCopy(body[..|body| - 1]); }
  }

  /** For each section the two copies make the same profiles, up to the identity file, exactly when its ports agree. */
  lemma SectionAgreesIff(home: (Section, string), forward: nat, controller: nat)
    ensures ProfileAt(Dashboard, home, forward, controller) == Shared(ProfileAt(ControlPlane, home, forward, controller))
            <==> PortsAgree(home.0.body)
  {
    PortsByCopy(home.0.body);
  }

  /** The section each alias of the file stands in. */
  function Homes(sections: seq<Section>): (homes: seq<(Section, string)>)
    ensures forall k :: 0 <= k < |homes| ==> homes[k].0 in sections
  {
    if sections == [] then []
    else
      var s := sections[|sections| - 1];
      Homes(sections[..|sections| - 1]) + seq(|s.aliases|, k requires 0 <= k < |s.aliases| => (s, s.aliases[k]))
  }

  lemma {:induction false} OwnersAreHomes(copy: Copy, blocks: seq<Block>, sections: seq<Section>)
    requires Mirrors(copy, blocks, sections)
    ensures |Owners(blocks)| == |Homes(sections)|
    ensures forall k :: 0 <= k < |Homes(sections)| ==>
              Owners(blocks)[k] == (BlockOf(copy, Homes(sections)[k].0), Homes(sections)[k].1)
  {
    if blocks != [] {
      var n := |blocks| - 1;
      OwnersAreHomes(copy, blocks[..n], sections[..n]);
      assert blocks[n].aliases == sections[n].aliases;
    }
  }

  /** The profile made for an alias of a section. */
  function ProfileAt(copy: Copy, home: (Section, string), forward: nat, controller: nat): Profile {
    MakeProfile(BlockOf(copy, home.0), home.1, forward, controller)
  }

  lemma ProfilesOfHomes(copy: Copy, o: seq<(Block, string)>, homes: seq<(Section, string)>, base: nat, controller: nat)
    requires |o| == |homes|
    requires forall k :: 0 <= k < |homes| ==> o[k] == (BlockOf(copy, homes[k].0), homes[k].1)
    ensures forall k :: 0 <= k < |homes| ==>
              ProfilesOf(o, base, controller)[k] == ProfileAt(copy, homes[k], base + k, controller)
  {
  }

  lemma ProfilesAtHomes(copy: Copy, ds: seq<Directive>, base: nat, controller: nat)
    ensures var profiles, homes := Profiles(ScanAll(copy, ds).blocks, base, controller), Homes(Sections(ds));
            && |profiles| == |homes|
            && forall k :: 0 <= k < |homes| ==> profiles[k] == ProfileAt(copy, homes[k], base + k, controller)
  {
    BlocksAreSections(copy, ds);
    OwnersAreHomes(copy, ScanAll(copy, ds).blocks, Sections(ds));
    ProfilesOfHomes(copy, Owners(ScanAll(copy, ds).blocks), Homes(Sections(ds)), base, controller);
  }

  /** The last directive of a section that passes the test. */
  function LastWhere(body: seq<Directive>, test: Directive -> bool): Option<Directive> {
    if body == [] then None
    else if test(body[|body| - 1]) then Some(body[|body| - 1])
    else LastWhere(body[..|body| - 1], test)
  }

  predicate IsHostName(d: Directive) { d.HostName? }
  predicate IsUser(d: Directive) { d.User? }
  predicate IsIdentity(d: Directive) { d.IdentityFile? }
  predicate IsForward(d: Directive) { d.LocalForward? && d.ports.Some? }
  predicate IsPort(d: Directive) { d.Port? }
  predicate IsPortInRange(d: Directive) { d.Port? && d.port.Number? && 0.0 < d.port.value <= 65535.0 }

  /** What a profile says, field by field, in terms of the directives of its section. */
  predicate Describes(p: Profile, copy: Copy, body: seq<Directive>, alias: string, forward: nat, controller: nat) {
    && p.alias == alias
    && (match LastWhere(body, IsHostName)
        case Some(d) => d.HostName? && p.hostName == (if d.name == "" then alias else d.name)
        case None => p.hostName == alias)
    && (match LastWhere(body, IsUser)
        case Some(d) => d.User? && p.user == Some(d.name) && p.target == (if d.name == "" then alias else d.name + "@" + alias)
        case None => p.user.None? && p.target == alias)
    && (match LastWhere(body, IsForward)
        case Some(d) => d.LocalForward? && d.ports == Some((p.forwardPort, p.controllerPort))
        case None => p.forwardPort == forward && p.controllerPort == controller)
    && (match LastWhere(body, IsIdentity)
        case Some(d) => d.IdentityFile? && p.identityFile == (if copy.ControlPlane? then Some(d.path) else None)
        case None => p.identityFile.None?)
    && (match LastWhere(body, if copy.ControlPlane? then IsPortInRange else IsPort)
        case Some(d) => d.Port? && p.port == (if d.port in {NotANumber, Number(0.0)} then Number(22.0) else d.port)
        case None => p.port == Number(22.0))
  }

  /** One profile for each alias of the file, in order, described by the section it stands in. */
  predicate Describe(profiles: seq<Profile>, copy: Copy, ds: seq<Directive>, base: nat, controller: nat) {
    var homes := Homes(Sections(ds));
    && |profiles| == |homes|
    && forall k :: 0 <= k < |homes| ==> Describes(profiles[k], copy, homes[k].0.body, homes[k].1, base + k, controller)
  }

  /** A field is the value of the last directive that has one. */
  lemma {:induction false} LastIsWhere<T>(body: seq<Directive>, pick: Directive -> Option<T>, test: Directive -> bool)
    requires forall d :: test(d) <==> pick(d).Some?
    ensures match LastWhere(body, test)
            case Some(d) => test(d) && LastOf(body, pick) == pick(d)
            case None => LastOf(body, pick).None?
  {
    if body != [] { LastIsWhere(body[..|body| - 1], pick, test); }
  }

  lemma NamesDescribed(body: seq<Directive>)
    ensures match LastWhere(body, IsHostName)
            case Some(d) => d.HostName? && LastOf(body, PickHostName) == Some(d.name)
            case None => LastOf(body, PickHostName).None?
    ensures match LastWhere(body, IsUser)
            case Some(d) => d.User? && LastOf(body, PickUser) == Some(d.name)
            case None => LastOf(body, PickUser).None?
    ensures match LastWhere(body, IsIdentity)
            case Some(d) => d.IdentityFile? && LastOf(body, PickIdentity) == Some(d.path)
            case None => LastOf(body, PickIdentity).None?
  {
    LastIsWhere(body, PickHostName, IsHostName);
    LastIsWhere(body, PickUser, IsUser);
    LastIsWhere(body, PickIdentity, IsIdentity);
  }

  lemma ForwardsDescribed(body: seq<Directive>)
    ensures match LastWhere(body, IsForward)
            case Some(d) => d.LocalForward? && d.ports.Some? && LastOf(body, PickForward) == Some(d.ports.value.0)
                            && LastOf(body, PickController) == Some(d.ports.value.1)
            case None => LastOf(body, PickForward).None? && LastOf(body, PickController).None?
  {
    LastIsWhere(body, PickForward, IsForward);
    LastIsWhere(body, PickController, IsForward);
  }

  lemma PortsDescribed(copy: Copy, body: seq<Directive>)
    ensures match LastWhere(body, if copy.ControlPlane? then IsPortInRange else IsPort)
            case Some(d) => d.Port? && LastPort(copy, body) == Some(if d.port in {NotANumber, Number(0.0)} then Number(22.0) else d.port)
            case None => LastPort(copy, body).None?
  {
    LastIsWhere(body, PickValidPort, IsPortInRange);
    LastIsWhere(body, PickAnyPort, IsPort);
  }

  lemma ProfileIsDescribed(p: Profile, copy: Copy, home: (Section, string), forward: nat, controller: nat)
    requires p == ProfileAt(copy, home, forward, controller)
    ensures Describes(p, copy, home.0.body, home.1, forward, controller)
  {
    NamesDescribed(home.0.body);
    ForwardsDescribed(home.0.body);
    PortsDescribed(copy, home.0.body);
  }

  /** Every profile is read off its own section, its alias and its position; nothing else in the file matters. */
  lemma ProfilesAreHomes(copy: Copy, ds: seq<Directive>, base: nat, controller: nat)
    ensures Describe(Profiles(ScanAll(copy, ds).blocks, base, controller), copy, ds, base, controller)
  {
    ProfilesAtHomes(copy, ds, base, controller);
    DescribedAll(Profiles(ScanAll(copy, ds).blocks, base, controller), copy, Homes(Sections(ds)), base, controller);
  }

  lemma DescribedAll(profiles: seq<Profile>, copy: Copy, homes: seq<(Section, string)>, base: nat, controller: nat)
    requires |profiles| == |homes|
    requires forall k :: 0 <= k < |profiles| ==> profiles[k] == ProfileAt(copy, homes[k], base + k, controller)
    ensures forall k :: 0 <= k < |homes| ==> Describes(profiles[k], copy, homes[k].0.body, homes[k].1, base + k, controller)
  {
    forall k | 0 <= k < |homes|
      ensures Describes(profiles[k], copy, homes[k].0.body, homes[k].1, base + k, controller)
    {
      ProfileIsDescribed(profiles[k], copy, homes[k], base + k, controller);
    }
  }

  lemma {:induction false} EverySectionIsHome(sections: seq<Section>, n: nat) returns (k: nat)
    requires n < |sections| && sections[n].aliases != []
    ensures k < |Homes(sections)| && Homes(sections)[k].0 == sections[n]
  {
    if n == |sections| - 1 {
      k := |Homes(sections[..n])|;
    } else {
      k := EverySectionIsHome(sections[..|sections| - 1], n);
    }
  }

  lemma {:induction false} SectionsHaveAliases(ds: seq<Directive>)
    ensures forall n :: 0 <= n < |Sections(ds)| ==> Sections(ds)[n].aliases != []
  {
    if ds != [] { SectionsHaveAliases(ds[..|ds| - 1]); }
  }

  function ControlPlaneProfiles(ds: seq<Directive>): seq<Profile> {
    Profiles(ScanAll(ControlPlane, ds).blocks, DEFAULT_FORWARD_PORT, DEFAULT_CONTROLLER_PORT)
  }

  function DashboardProfiles(ds: seq<Directive>): seq<Profile> {
    Profiles(ScanAll(Dashboard, ds).blocks, DEFAULT_FORWARD_PORT, DEFAULT_CONTROLLER_PORT)
  }

  /** The two copies read the same profiles, up to the identity file, exactly when the ports of every section agree. */
  lemma ParsersAgreeIff(ds: seq<Directive>)
    ensures |ControlPlaneProfiles(ds)| == |DashboardProfiles(ds)|
    ensures (forall k :: 0 <= k < |ControlPlaneProfiles(ds)| ==> DashboardProfiles(ds)[k] == Shared(ControlPlaneProfiles(ds)[k]))
            <==> (forall n :: 0 <= n < |Sections(ds)| ==> PortsAgree(Sections(ds)[n].body))
  {
    var homes := Homes(Sections(ds));
    ProfilesAtHomes(ControlPlane, ds, DEFAULT_FORWARD_PORT, DEFAULT_CONTROLLER_PORT);
    ProfilesAtHomes(Dashboard, ds, DEFAULT_FORWARD_PORT, DEFAULT_CONTROLLER_PORT);
    forall k | 0 <= k < |homes|
      ensures DashboardProfiles(ds)[k] == Shared(ControlPlaneProfiles(ds)[k]) <==> PortsAgree(homes[k].0.body)
    {
      SectionAgreesIff(homes[k], DEFAULT_FORWARD_PORT + k, DEFAULT_CONTROLLER_PORT);
    }
    SectionsHaveAliases(ds);
    forall n | 0 <= n < |Sections(ds)|
      ensures exists k :: 0 <= k < |homes| && homes[k].0 == Sections(ds)[n]
    {
      var k := EverySectionIsHome(Sections(ds), n);
    }
  }

  predicate GoodPorts(ds: seq<Directive>) {
    forall k :: 0 <= k < |ds| && ds[k].Port? ==> ValidPort(ds[k].port)
  }

  lemma {:induction false} GoodPortsAgree(body: seq<Directive>)
    requires GoodPorts(body)
    ensures PortsAgree(body)
  {
    if body != [] { GoodPortsAgree(body[..|body| - 1]); }
  }

  lemma {:induction false} GoodSections(ds: seq<Directive>)
    requires GoodPorts(ds)
    ensures forall n :: 0 <= n < |Sections(ds)| ==> GoodPorts(Sections(ds)[n].body)
  {
    if ds != [] { GoodSections(ds[..|ds| - 1]); }
  }

  /** With port numbers in range, both copies read the same profiles, up to the identity file. */
  lemma ParsersAgree(ds: seq<Directive>)
    requires GoodPorts(ds)
    ensures |ControlPlaneProfiles(ds)| == |DashboardProfiles(ds)|
    ensures forall k :: 0 <= k < |ControlPlaneProfiles(ds)| ==> DashboardProfiles(ds)[k] == Shared(ControlPlaneProfiles(ds)[k])
  {
    GoodSections(ds);
    forall n | 0 <= n < |Sections(ds)| ensures PortsAgree(Sections(ds)[n].body) {
      GoodPortsAgree(Sections(ds)[n].body);
    }
    ParsersAgreeIff(ds);
  }

  lemma OneBlock(copy: Copy, port: PortValue)
    ensures ScanAll(copy, [Host(["build"]), Port(port)]).blocks == [SetPort(copy, NewBlock(["build"]), port)]
  {
    var ds := [Host(["build"]), Port(port)];
    assert ds[..1] == [ds[0]] && ds[..1][..0] == [];
    assert Aliases(["build"]) == ["build"];
    assert ScanAll(copy, ds[..1]) == Scan([NewBlock(["build"])], true);
  }

  lemma OneProfile(b: Block)
    requires b.aliases == ["build"]
    ensures Owners([b]) == [(b, "build")]
  {
  }

  /** A port out of range that one copy drops and the other keeps. */
  lemma ParsersDiffer()
    ensures var ds := [Host(["build"]), Port(Number(70000.0))];
            && |ControlPlaneProfiles(ds)| == |DashboardProfiles(ds)| == 1
            && ControlPlaneProfiles(ds)[0].port == SSH_PORT
            && DashboardProfiles(ds)[0].port == Number(70000.0)
  {
    var p := Number(70000.0);
    OneBlock(ControlPlane, p);
    OneBlock(Dashboard, p);
    OneProfile(SetPort(ControlPlane, NewBlock(["build"]), p));
    OneProfile(SetPort(Dashboard, NewBlock(["build"]), p));
  }
}
