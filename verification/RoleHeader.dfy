/** The role header: one accepted spelling for each admissible role set, and no other. */
module RoleHeader {
  import opened Text

  datatype StaffRole = EndUser | Technician | SeniorTechnician | Administrator | NoRole
  {
    function Name(): string {
      match this
      case EndUser => "end_user"
      case Technician => "technician"
      case SeniorTechnician => "senior_technician"
      case Administrator => "administrator"
      case NoRole => "none"
    }
  }

  /** The five words a header is made of. */
  lemma RoleWords(name: string, role: StaffRole)
    ensures RoleNamed(name) == Some(role) <==>
            || (role == EndUser && name == "end_user")
            || (role == Technician && name == "technician")
            || (role == SeniorTechnician && name == "senior_technician")
            || (role == Administrator && name == "administrator")
            || (role == NoRole && name == "none")
  {
    assert "end_user"[0] == 'e' && "technician"[0] == 't' && "senior_technician"[0] == 's';
    assert "administrator"[0] == 'a' && "none"[0] == 'n';
  }

  /** `StaffRole.TryParse`: the five names, spelled exactly. */
  function RoleNamed(name: string): Option<StaffRole>
  {
    if name == EndUser.Name() then Some(EndUser)
    else if name == Technician.Name() then Some(Technician)
    else if name == SeniorTechnician.Name() then Some(SeniorTechnician)
    else if name == Administrator.Name() then Some(Administrator)
    else if name == NoRole.Name() then Some(NoRole)
    else None
  }

  /** `string.CompareOrdinal(a, b) < 0`. */
  predicate OrdinalLess(a: string, b: string)
  {
    b != "" && (a == "" || a[0] < b[0] || (a[0] == b[0] && OrdinalLess(a[1..], b[1..])))
  }

  /** The roles in the order of their names. */
  const BY_NAME: seq<StaffRole> := [Administrator, EndUser, NoRole, SeniorTechnician, Technician]

  function Rank(role: StaffRole): (rank: nat)
    ensures rank < 5 && BY_NAME[rank] == role
  {
    match role
    case Administrator => 0
    case EndUser => 1
    case NoRole => 2
    case SeniorTechnician => 3
    case Technician => 4
  }

  lemma RankIsNameOrder(a: StaffRole, b: StaffRole)
    ensures OrdinalLess(a.Name(), b.Name()) <==> Rank(a) < Rank(b)
  {
    assert a.Name()[0] == "aenst"[Rank(a)];
    assert b.Name()[0] == "aenst"[Rank(b)];
    if a == b {
      OrdinalIrreflexive(a.Name());
    }
  }

  lemma {:induction false} OrdinalIrreflexive(a: string)
    ensures !OrdinalLess(a, a)
  {
    if a == "" {
    } else {
      OrdinalIrreflexive(a[1..]);
    }
  }

  function Names(roles: seq<StaffRole>): (names: seq<string>)
    ensures |names| == |roles| && forall i :: 0 <= i < |roles| ==> names[i] == roles[i].Name()
  {
    seq(|roles|, i requires 0 <= i < |roles| => roles[i].Name())
  }

  predicate Ascending(roles: seq<StaffRole>)
  {
    forall i, j :: 0 <= i < j < |roles| ==> OrdinalLess(roles[i].Name(), roles[j].Name())
  }

  /** The members of a set, from one place of the name order on. */
  function MembersFrom(roles: set<StaffRole>, rank: nat): (members: seq<StaffRole>)
    requires rank <= 5
    decreases 5 - rank
  {
    if rank == 5 then []
    else (if BY_NAME[rank] in roles then [BY_NAME[rank]] else []) + MembersFrom(roles, rank + 1)
  }

  /** `RoleSet.ToString`: the names in ordinal order, joined by commas. */
  function Rendered(roles: set<StaffRole>): string
  {
    Join(Names(MembersFrom(roles, 0)), ',')
  }

  lemma RankOf(rank: nat, role: StaffRole)
    requires rank < 5
    ensures Rank(BY_NAME[rank]) == rank
    ensures Rank(role) == rank <==> role == BY_NAME[rank]
  {
  }

  lemma {:induction false} MembersFacts(roles: set<StaffRole>, rank: nat)
    requires rank <= 5
    ensures forall r :: r in MembersFrom(roles, rank) <==> r in roles && Rank(r) >= rank
    ensures Ascending(MembersFrom(roles, rank))
    decreases 5 - rank
  {
    if rank < 5 {
      MembersFacts(roles, rank + 1);
      var rest := MembersFrom(roles, rank + 1);
      forall r
        ensures r in MembersFrom(roles, rank) <==> r in roles && Rank(r) >= rank
        ensures r in rest ==> OrdinalLess(BY_NAME[rank].Name(), r.Name())
      {
        RankOf(rank, r);
        RankIsNameOrder(BY_NAME[rank], r);
        hide OrdinalLess, Rank;
      }
      hide OrdinalLess, Rank;
    }
  }

  /** An ascending sequence is determined by its members. */
  lemma {:induction false} AscendingUnique(a: seq<StaffRole>, b: seq<StaffRole>)
    requires Ascending(a) && Ascending(b) && forall r :: r in a <==> r in b
    ensures a == b
  {
    if a == [] {
      NoMembers(b);
    } else {
      assert a[0] in b;
      var i :| 0 <= i < |b| && b[i] == a[0];
      assert b[0] in a;
      var j :| 0 <= j < |a| && a[j] == b[0];
      RankIsNameOrder(a[0], b[0]);
      RankIsNameOrder(b[0], a[0]);
      assert a[0] == b[0];
      TailMembers(a);
      TailMembers(b);
      AscendingUnique(a[1..], b[1..]);
      assert a == [a[0]] + a[1..] && b == [b[0]] + b[1..];
    }
  }

  lemma NoMembers(roles: seq<StaffRole>)
    ensures roles != [] ==> exists r :: r in roles
  {
    if roles != [] {
      assert roles[0] in roles;
    }
  }

  lemma TailMembers(roles: seq<StaffRole>)
    requires roles != [] && Ascending(roles)
    ensures forall r :: r in roles[1..] <==> r in roles && r != roles[0]
    ensures Ascending(roles[1..])
  {
    forall i | 1 <= i < |roles|
      ensures roles[i] != roles[0]
    {
      RankIsNameOrder(roles[0], roles[i]);
    }
    assert roles == [roles[0]] + roles[1..];
  }

  /** A set that may be sent: not empty, and a sentinel only alone. */
  predicate Admissible(roles: set<StaffRole>)
  {
    roles != {} && (EndUser in roles || NoRole in roles ==> |roles| == 1)
  }

  lemma NameReads(role: StaffRole)
    ensures RoleNamed(role.Name()) == Some(role)
    ensures ',' !in role.Name() && role.Name() != ""
  {
    assert role.Name()[0] == "aenst"[Rank(role)];
  }

  /** Cutting a rendering at its commas gives the names again. */
  lemma RenderedSplits(roles: set<StaffRole>)
    requires roles != {}
    ensures Split(Rendered(roles), ',') == Names(MembersFrom(roles, 0))
  {
    var members := MembersFrom(roles, 0);
    MembersFacts(roles, 0);
    var role :| role in roles;
    assert role in members;
    forall i | 0 <= i < |members|
      ensures ',' !in Names(members)[i]
    {
      NameReads(members[i]);
    }
    hide MembersFrom, Names;
    SplitJoin(Names(members), ',');
  }

  lemma NamesInjective(a: seq<StaffRole>, b: seq<StaffRole>)
    requires Names(a) == Names(b)
    ensures a == b
  {
    assert |a| == |Names(a)| == |Names(b)| == |b|;
    forall i | 0 <= i < |a|
      ensures a[i] == b[i]
    {
      assert Names(a)[i] == Names(b)[i];
      NameReads(a[i]);
      NameReads(b[i]);
    }
  }

  /** Different role sets have different renderings. */
  lemma RenderedInjective(a: set<StaffRole>, b: set<StaffRole>)
    requires a != {} && b != {}
    ensures Rendered(a) == Rendered(b) <==> a == b
  {
    if Rendered(a) == Rendered(b) {
      RenderedSplits(a);
      RenderedSplits(b);
      MembersFacts(a, 0);
      MembersFacts(b, 0);
      NamesInjective(MembersFrom(a, 0), MembersFrom(b, 0));
      hide MembersFrom, Rendered, Ascending;
      forall r
        ensures r in a <==> r in b
      {
        assert r in a <==> r in MembersFrom(a, 0);
      }
    }
  }

  datatype Rejection = Accepted | MissingHeader | InvalidRoleSet | SentinelCombinedWithRole

  /** `char.IsWhiteSpace`. */
  predicate White(c: char)
  {
    || '\t' <= c <= '\r' || c == ' ' || c == '\U{85}' || c == '\U{A0}' || c == '\U{1680}'
    || '\U{2000}' <= c <= '\U{200A}' || c == '\U{2028}' || c == '\U{2029}' || c == '\U{202F}'
    || c == '\U{205F}' || c == '\U{3000}'
  }

  predicate AllWhite(text: string)
  {
    forall i :: 0 <= i < |text| ==> White(text[i])
  }

  lemma WhiteCodePoints(text: string)
    ensures AllWhite(text) <==>
            forall c :: c in text ==>
              || 9 <= c as int < 14
              || c as int in {32, 133, 160, 5760, 8232, 8233, 8239, 8287, 12288}
              || 8192 <= c as int < 8203
  {
    if !AllWhite(text) {
      var i :| 0 <= i < |text| && !White(text[i]);
      assert text[i] in text;
    }
  }

  /** The parts name distinct roles in ascending order. */
  ghost predicate Spells(parts: seq<string>, roles: seq<StaffRole>)
  {
    parts == Names(roles) && Ascending(roles)
  }

  /** Roles in ascending order are their set, in order. */
  lemma AscendingIsCanonical(roles: seq<StaffRole>)
    requires Ascending(roles)
    ensures MembersFrom(set r | r in roles, 0) == roles
    ensures |set r | r in roles| == |roles|
  {
    MembersFacts(set r | r in roles, 0);
    AscendingUnique(MembersFrom(set r | r in roles, 0), roles);
    AscendingSize(roles);
  }

  lemma {:induction false} AscendingSize(roles: seq<StaffRole>)
    requires Ascending(roles)
    ensures |set r | r in roles| == |roles|
  {
    if roles == [] {
    } else {
      TailMembers(roles);
      AscendingSize(roles[1..]);
      assert (set r | r in roles) == (set r | r in roles[1..]) + {roles[0]};
    }
  }

  /** Only the canonical rendering of a set is spelled by such parts. */
  lemma SpelledIsRendered(header: string, roles: seq<StaffRole>)
    requires Spells(Split(header, ','), roles)
    ensures header == Rendered(set r | r in roles)
  {
    AscendingIsCanonical(roles);
    JoinSplit(header, ',');
    hide Split, MembersFrom, Ascending;
  }

  lemma RenderedIsSpelled(roles: set<StaffRole>)
    requires roles != {}
    ensures Spells(Split(Rendered(roles), ','), MembersFrom(roles, 0))
  {
    RenderedSplits(roles);
    MembersFacts(roles, 0);
    hide Split, Rendered, MembersFrom;
  }

  ghost predicate Unspelled(parts: seq<string>)
  {
    forall roles: seq<StaffRole> :: !Spells(parts, roles)
  }

  /** Parts nobody spells are not the parts of any rendering. */
  lemma UnspelledIsUnrendered(header: string)
    requires Unspelled(Split(header, ','))
    ensures forall roles: set<StaffRole> :: roles != {} ==> header != Rendered(roles)
  {
    hide Split, Spells, Rendered, MembersFrom;
    forall roles: set<StaffRole> | roles != {}
      ensures header != Rendered(roles)
    {
      RenderedIsSpelled(roles);
    }
  }

  lemma StrangePart(parts: seq<string>, i: nat)
    requires i < |parts| && RoleNamed(parts[i]).None?
    ensures Unspelled(parts)
  {
    forall roles: seq<StaffRole>
      ensures !Spells(parts, roles)
    {
      if |roles| == |parts| {
        NameReads(roles[i]);
        assert Names(roles)[i] != parts[i];
      }
    }
  }

  lemma OutOfOrder(parts: seq<string>, i: nat, j: nat)
    requires i < j < |parts| && !OrdinalLess(parts[i], parts[j])
    ensures Unspelled(parts)
  {
    forall roles: seq<StaffRole>
      ensures !Spells(parts, roles)
    {
      if parts == Names(roles) {
        assert parts[i] == roles[i].Name() && parts[j] == roles[j].Name();
      }
    }
  }

  lemma AscendingNext(roles: seq<StaffRole>, i: nat)
    requires 1 <= i < |roles| && Ascending(roles[..i]) && OrdinalLess(roles[i - 1].Name(), roles[i].Name())
    ensures Ascending(roles[..i + 1])
  {
    var longer := roles[..i + 1];
    forall a, b | 0 <= a < b < |longer|
      ensures OrdinalLess(longer[a].Name(), longer[b].Name())
    {
      if b < i {
        assert roles[..i][a] == longer[a] && roles[..i][b] == longer[b];
      } else {
        if a < i - 1 {
          assert OrdinalLess(roles[..i][a].Name(), roles[..i][i - 1].Name());
          RankIsNameOrder(roles[a], roles[i - 1]);
        }
        RankIsNameOrder(roles[i - 1], roles[i]);
        RankIsNameOrder(roles[a], roles[i]);
      }
    }
  }

  /** The header was the rendering of some roles that may not be combined. */
  ghost predicate RendersCombinedSentinel(header: string)
  {
    exists roles: set<StaffRole> :: roles != {} && !Admissible(roles) && header == Rendered(roles)
  }

  /** The first loop: each part a role, and no role twice. */
  method ReadParts(parts: seq<string>) returns (parsed: Option<seq<StaffRole>>)
    ensures parsed.Some? ==> parts == Names(parsed.value)
    ensures parsed.None? ==> Unspelled(parts)
  {
    hide Spells, OrdinalLess, RoleNamed, Unspelled;
    var list: seq<StaffRole> := [];
    for i := 0 to |parts|
      invariant Names(list) == parts[..i]
    {
      var role := RoleNamed(parts[i]);
      if role.None? {
        StrangePart(parts, i);
        return None;
      }
      RoleNamedIsName(parts[i]);
      if role.value in list {
        ghost var j :| 0 <= j < |list| && list[j] == role.value;
        assert parts[j] == Names(list)[j];
        OrdinalIrreflexive(parts[i]);
        OutOfOrder(parts, j, i);
        return None;
      }
      list := list + [role.value];
      assert Names(list) == parts[..i + 1];
    }
    assert parts[..|parts|] == parts;
    return Some(list);
  }

  /** The second loop: canonical order, checked and not assumed. */
  method InOrder(parsed: seq<StaffRole>) returns (ok: bool)
    ensures ok <==> Ascending(parsed)
  {
    hide OrdinalLess;
    var i := 1;
    while i < |parsed|
      invariant 1 <= i && (i <= |parsed| ==> Ascending(parsed[..i]))
      invariant i <= |parsed| || |parsed| == 0
    {
      if !OrdinalLess(parsed[i - 1].Name(), parsed[i].Name()) {
        return false;
      }
      AscendingNext(parsed, i);
      i := i + 1;
    }
    assert parsed[..|parsed|] == parsed;
    return true;
  }

  lemma NotAscendingIsUnspelled(parsed: seq<StaffRole>)
    requires !Ascending(parsed)
    ensures Unspelled(Names(parsed))
  {
    var i, j :| 0 <= i < j < |parsed| && !OrdinalLess(parsed[i].Name(), parsed[j].Name());
    OutOfOrder(Names(parsed), i, j);
  }

  /**
   `TryParseRoles`. A header is accepted with a set exactly when the set is admissible and the header is
   its canonical rendering; a refusal names its reason, and a header no set renders as is invalid.
   */
  method TryParseRoles(header: Option<string>) returns (roles: set<StaffRole>, rejection: Rejection)
    ensures rejection.Accepted? ==> Admissible(roles) && header == Some(Rendered(roles))
    ensures !rejection.Accepted? ==>
              roles == {} && forall s: set<StaffRole> :: Admissible(s) ==> header != Some(Rendered(s))
    ensures rejection.MissingHeader? <==>
              header.None? ||
              forall c :: c in header.value ==>
                || 9 <= c as int < 14
                || c as int in {32, 133, 160, 5760, 8232, 8233, 8239, 8287, 12288}
                || 8192 <= c as int < 8203
    ensures rejection.SentinelCombinedWithRole? <==> header.Some? && RendersCombinedSentinel(header.value)
  {
    hide Split, Rendered, MembersFrom, Admissible, Spells, Unspelled, Ascending, RendersCombinedSentinel;
    if header.Some? {
      WhiteCodePoints(header.value);
    }
    if header.None? || AllWhite(header.value) {
      WhiteIsUnrendered(header);
      return {}, MissingHeader;
    }
    var parts := Split(header.value, ',');
    var parsed := ReadParts(parts);
    if parsed.None? {
      Unrendered(header.value);
      return {}, InvalidRoleSet;
    }
    var ordered := InOrder(parsed.value);
    if !ordered {
      NotAscendingIsUnspelled(parsed.value);
      Unrendered(header.value);
      return {}, InvalidRoleSet;
    }
    var members := set r | r in parsed.value;
    Spelled(header.value, parsed.value, members);
    var hasSentinel := EndUser in parsed.value || NoRole in parsed.value;
    OnlyThisSet(header.value, members);
    if hasSentinel && |parsed.value| > 1 {
      return {}, SentinelCombinedWithRole;
    }
    return members, Accepted;
  }

  lemma Spelled(header: string, parsed: seq<StaffRole>, members: set<StaffRole>)
    requires Split(header, ',') == Names(parsed) && Ascending(parsed) && members == set r | r in parsed
    ensures members != {} && header == Rendered(members)
    ensures Admissible(members) <==> !((EndUser in parsed || NoRole in parsed) && |parsed| > 1)
  {
    SpelledIsRendered(header, parsed);
    AscendingIsCanonical(parsed);
    assert |parsed| == |Split(header, ',')| >= 1;
    AdmissibleWhen(members, parsed);
  }

  lemma AdmissibleWhen(members: set<StaffRole>, parsed: seq<StaffRole>)
    requires members == (set r | r in parsed) && parsed != [] && |members| == |parsed|
    ensures Admissible(members) <==> !((EndUser in parsed || NoRole in parsed) && |parsed| > 1)
    ensures members != {}
  {
    assert parsed[0] in members;
  }

  lemma RoleNamedIsName(name: string)
    requires RoleNamed(name).Some?
    ensures RoleNamed(name).value.Name() == name
  {
  }

  lemma Unrendered(header: string)
    requires Unspelled(Split(header, ','))
    ensures forall s: set<StaffRole> :: Admissible(s) ==> header != Rendered(s)
    ensures !RendersCombinedSentinel(header)
  {
    hide Split, Rendered, Unspelled;
    UnspelledIsUnrendered(header);
  }

  lemma OnlyThisSet(header: string, members: set<StaffRole>)
    requires members != {} && header == Rendered(members)
    ensures Admissible(members) ==> !RendersCombinedSentinel(header)
    ensures !Admissible(members) ==>
              RendersCombinedSentinel(header) && forall s: set<StaffRole> :: Admissible(s) ==> header != Rendered(s)
  {
    forall s: set<StaffRole> | s != {} && header == Rendered(s)
      ensures s == members
    {
      RenderedInjective(s, members);
    }
    hide Rendered;
  }

  lemma RenderingIsVisible(roles: set<StaffRole>)
    requires roles != {}
    ensures !AllWhite(Rendered(roles))
  {
    var members := MembersFrom(roles, 0);
    MembersFacts(roles, 0);
    var role :| role in roles;
    assert role in members;
    hide MembersFrom;
    RenderingStarts(members);
    FirstLetter(members[0]);
    assert !White(Rendered(roles)[0]);
  }

  lemma FirstLetter(role: StaffRole)
    ensures role.Name() != "" && !White(role.Name()[0])
  {
    assert role.Name()[0] == "aenst"[Rank(role)];
  }

  lemma WhiteIsUnrendered(header: Option<string>)
    requires header.None? || AllWhite(header.value)
    ensures forall s: set<StaffRole> :: Admissible(s) ==> header != Some(Rendered(s))
    ensures header.Some? ==> !RendersCombinedSentinel(header.value)
  {
    hide Rendered, AllWhite;
    forall s: set<StaffRole> | s != {} && header.Some?
      ensures header.value != Rendered(s)
    {
      RenderingIsVisible(s);
    }
  }

  lemma RenderingStarts(members: seq<StaffRole>)
    requires members != []
    ensures Join(Names(members), ',') != "" && members[0].Name() != ""
    ensures Join(Names(members), ',')[0] == members[0].Name()[0]
  {
    NameReads(members[0]);
    assert Names(members)[0] == members[0].Name();
  }
}
