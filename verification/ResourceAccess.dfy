/** The access view of a resource (direct entries, then entries inherited through organizations), and the explanation
    of one subject's access. */
module ResourceAccess {
  import opened Sequences
  import opened Tuples
  import opened ReasonCodes

  /** One listed subject; `via` names the organization of an inherited entry. */
  datatype Entry = Entry(id: string, level: Relation, via: Option<string>)

  /** The answer to reading the tuples of an object, in the order the store gives them. A failed read answers []. */
  type Reader = Entity -> seq<Tuple>

  // ----- subject names -----

  /** `parseSubject`. */
  function ParseSubject(name: string): (string, string) {
    var colon := FirstColon(name);
    if colon == |name| then ("unknown", name) else (name[..colon], name[colon + 1..])
  }

  /** Parsing undoes formatting exactly for types without a colon; ids may hold any. */
  lemma ParseUndoesFormat(kind: string, id: string)
    ensures ParseSubject(kind + ":" + id) == (kind, id) <==> ':' !in kind
  {
    var name := kind + ":" + id;
    assert name[|kind|] == ':';
    var colon := FirstColon(name);
    assert name[..|name|] == name;
    assert colon < |name|;
    if ':' !in kind {
      FirstColonAfter(kind, id);
      assert name[..|kind|] == kind && name[|kind| + 1..] == id;
    } else {
      assert ':' !in name[..colon];
    }
  }

  /** Formatting undoes parsing exactly for names with a colon; the others come back as "unknown:" names. */
  lemma FormatUndoesParse(name: string)
    ensures var (kind, id) := ParseSubject(name); kind + ":" + id == name <==> ':' in name
    ensures ':' !in name ==> ParseSubject(name) == ("unknown", name)
  {
    var colon := FirstColon(name);
    if colon == |name| {
      assert name[..colon] == name;
      assert ("unknown" + ":" + name)[7] == ':';
    }
  }

  // ----- what the view should hold -----

  /** The direct entries of one subject type, in tuple order. */
  function Entries(tuples: seq<Tuple>, kind: Kind): seq<Entry> {
    if tuples == [] then []
    else
      var front, last := tuples[..|tuples| - 1], tuples[|tuples| - 1];
      Entries(front, kind) + if last.user.kind == kind then [Entry(last.user.id, last.relation, None)] else []
  }

  function OrgIds(tuples: seq<Tuple>): seq<string> {
    if tuples == [] then []
    else
      var front, last := tuples[..|tuples| - 1], tuples[|tuples| - 1];
      OrgIds(front) + if last.user.kind == Organization then [last.user.id] else []
  }

  function Self(): string -> string {
    (id: string) => id
  }

  /** The organizations in the order a JavaScript map keeps them: that of their first tuple. */
  function Orgs(tuples: seq<Tuple>): seq<string> {
    FirstBy(OrgIds(tuples), Self())
  }

  /** The level an organization ends with: that of its last tuple. */
  function LastLevel(tuples: seq<Tuple>, org: string): Option<Relation> {
    if tuples == [] then None
    else
      var front, last := tuples[..|tuples| - 1], tuples[|tuples| - 1];
      if last.user == Entity(Organization, org) then Some(last.relation) else LastLevel(front, org)
  }

  predicate HasDirect(tuples: seq<Tuple>, id: string) {
    exists t :: t in tuples && t.user == Entity(User, id)
  }

  /** What one tuple of an organization adds: a user without a direct entry inherits the level. */
  function Inheriting(tuples: seq<Tuple>, m: Tuple, org: string, level: Relation): seq<Entry> {
    if m.user.kind == User && !HasDirect(tuples, m.user.id) then [Entry(m.user.id, level, Some(org))] else []
  }

  /** What the members of one organization would inherit. */
  function MemberEntries(tuples: seq<Tuple>, members: seq<Tuple>, org: string): seq<Entry> {
    if members == [] || LastLevel(tuples, org).None? then []
    else
      var front, last := members[..|members| - 1], members[|members| - 1];
      MemberEntries(tuples, front, org) + Inheriting(tuples, last, org, LastLevel(tuples, org).value)
  }

  function Candidates(read: Reader, tuples: seq<Tuple>, orgs: seq<string>): seq<Entry> {
    if orgs == [] then []
    else
      var front, org := orgs[..|orgs| - 1], orgs[|orgs| - 1];
      Candidates(read, tuples, front) + MemberEntries(tuples, read(Entity(Organization, org)), org)
  }

  /** A user inherits one level once. */
  function IdAndLevel(): Entry -> (string, Relation) {
    (e: Entry) => (e.id, e.level)
  }

  function Inherited(read: Reader, tuples: seq<Tuple>): seq<Entry> {
    FirstBy(Candidates(read, tuples, Orgs(tuples)), IdAndLevel())
  }

  // ----- the direct entries -----

  lemma {:induction false} EntriesMatchTuples(tuples: seq<Tuple>, kind: Kind, e: Entry)
    ensures e in Entries(tuples, kind) <==>
            e.via.None? && exists t :: t in tuples && t.user == Entity(kind, e.id) && t.relation == e.level
  {
    if tuples != [] {
      EntriesMatchTuples(tuples[..|tuples| - 1], kind, e);
    }
  }

  /** The direct entries of a type stand for the tuples of its subjects, one for one and in order. */
  lemma {:induction false} EntriesFollowTuples(tuples: seq<Tuple>, kind: Kind)
    ensures var own := Filter(tuples, (t: Tuple) => t.user.kind == kind);
            && |Entries(tuples, kind)| == |own|
            && forall i :: 0 <= i < |own| ==> Entries(tuples, kind)[i] == Entry(own[i].user.id, own[i].relation, None)
  {
    if tuples != [] {
      var front, last := tuples[..|tuples| - 1], tuples[|tuples| - 1];
      EntriesFollowTuples(front, kind);
      FilterOfSum(front, [last], (t: Tuple) => t.user.kind == kind);
      assert tuples == front + [last];
    }
  }

  /** The organizations come in the order of their tuples. */
  lemma {:induction false} OrgIdsFollowTuples(tuples: seq<Tuple>)
    ensures var own := Filter(tuples, (t: Tuple) => t.user.kind == Organization);
            |OrgIds(tuples)| == |own| && forall i :: 0 <= i < |own| ==> OrgIds(tuples)[i] == own[i].user.id
  {
    if tuples != [] {
      var front, last := tuples[..|tuples| - 1], tuples[|tuples| - 1];
      OrgIdsFollowTuples(front);
      FilterOfSum(front, [last], (t: Tuple) => t.user.kind == Organization);
      assert tuples == front + [last];
    }
  }

  /** The i-th tuple gives the organization the level, and no later tuple names it. */
  ghost predicate LastGives(tuples: seq<Tuple>, org: string, level: Relation, i: int) {
    && 0 <= i < |tuples| && tuples[i].user == Entity(Organization, org) && tuples[i].relation == level
    && forall j :: i < j < |tuples| ==> tuples[j].user != Entity(Organization, org)
  }

  /** An organization has the level of its last tuple. */
  lemma {:induction false} LastLevelIsTheLast(tuples: seq<Tuple>, org: string, level: Relation)
    ensures LastLevel(tuples, org) == Some(level) <==> exists i :: LastGives(tuples, org, level, i)
  {
    if tuples != [] {
      var n := |tuples| - 1;
      var front := tuples[..n];
      LastLevelIsTheLast(front, org, level);
      if tuples[n].user == Entity(Organization, org) {
        assert LastGives(tuples, org, tuples[n].relation, n);
      } else {
        forall i ensures LastGives(tuples, org, level, i) <==> LastGives(front, org, level, i) {
        }
      }
    }
  }

  lemma {:induction false} OrgIdsMatchTuples(tuples: seq<Tuple>, org: string)
    ensures org in OrgIds(tuples) <==> exists t :: t in tuples && t.user == Entity(Organization, org)
    ensures org in OrgIds(tuples) <==> LastLevel(tuples, org).Some?
    ensures LastLevel(tuples, org).Some? ==> 
              exists t ::
                t in tuples && t.user == Entity(Organization, org) && t.relation == LastLevel(tuples, org).value
  {
    if tuples != [] {
      OrgIdsMatchTuples(tuples[..|tuples| - 1], org);
    }
  }

  lemma OrgsMatchTuples(tuples: seq<Tuple>, org: string)
    ensures org in Orgs(tuples) <==> org in OrgIds(tuples)
  {
    var ids := OrgIds(tuples);
    FirstByDistinct(ids, Self());
    assert org in ids <==> HasKey(ids, Self(), org);
    assert org in Orgs(tuples) <==> HasKey(Orgs(tuples), Self(), org);
  }

  // ----- building it -----

  /** The organization map after the given tuples: its keys in order, and its values. */
  ghost predicate Tracks(orgs: seq<string>, levels: map<string, Relation>, tuples: seq<Tuple>) {
    && orgs == Orgs(tuples)
    && forall org :: if org in levels then LastLevel(tuples, org) == Some(levels[org]) else LastLevel(tuples, org).None?
  }

  /** The first loop of `getResourceAccess`. */
  method ListDirect(tuples: seq<Tuple>)
    returns (users: seq<Entry>, assistants: seq<Entry>, organizations: seq<Entry>, orgs: seq<string>,
             levels: map<string, Relation>)
    ensures users == Entries(tuples, User)
    ensures assistants == Entries(tuples, Agent)
    ensures organizations == Entries(tuples, Organization)
    ensures Tracks(orgs, levels, tuples)
  {
    users, assistants, organizations, orgs, levels := [], [], [], [], map[];
    for i := 0 to |tuples|
      invariant users == Entries(tuples[..i], User)
      invariant assistants == Entries(tuples[..i], Agent)
      invariant organizations == Entries(tuples[..i], Organization)
      invariant Tracks(orgs, levels, tuples[..i])
    {
      var t := tuples[i];
      ghost var front, all := tuples[..i], tuples[..i + 1];
      assert all[..|all| - 1] == front && all[|all| - 1] == t;
      var entry := Entry(t.user.id, t.relation, None);
      if t.user.kind == User {
        users := users + [entry];
      } else if t.user.kind == Agent {
        assistants := assistants + [entry];
      } else if t.user.kind == Organization {
        organizations := organizations + [entry];
        orgs, levels := SetLevel(orgs, levels, t, front);
      }
      assert t.user.kind != Organization ==> OrgIds(all) == OrgIds(front);
    }
    assert tuples[..|tuples|] == tuples;
  }

  /** `orgAccessMap.set`: an existing key keeps its place. */
  method SetLevel(orgs: seq<string>, levels: map<string, Relation>, t: Tuple, ghost front: seq<Tuple>)
    returns (orgs': seq<string>, levels': map<string, Relation>)
    requires Tracks(orgs, levels, front) && t.user.kind == Organization
    ensures Tracks(orgs', levels', front + [t])
  {
    ghost var all := front + [t];
    assert all[..|all| - 1] == front;
    ghost var ids := OrgIds(front);
    assert (ids + [t.user.id])[..|ids|] == ids;
    OrgIdsMatchTuples(front, t.user.id);
    assert HasKey(ids, Self(), t.user.id) <==> t.user.id in ids;
    orgs' := if t.user.id in levels then orgs else orgs + [t.user.id];
    levels' := levels[t.user.id := t.relation];
  }

  /** `users` is the direct entries followed by the inherited ones that these candidates leave. */
  ghost predicate Built(users: seq<Entry>, tuples: seq<Tuple>, candidates: seq<Entry>) {
    && users == Entries(tuples, User) + FirstBy(candidates, IdAndLevel())
    && forall e :: e in candidates ==> e.via.Some?
  }

  lemma UsersByOrigin(users: seq<Entry>, tuples: seq<Tuple>, candidates: seq<Entry>, id: string, level: Relation)
    requires Built(users, tuples, candidates)
    ensures (exists u :: u in users && u.id == id && u.via.None?) <==> HasDirect(tuples, id)
    ensures (exists u :: u in users && u.id == id && u.via.Some? && u.level == level) <==>
            HasKey(candidates, IdAndLevel(), (id, level))
  {
    var direct, kept := Entries(tuples, User), FirstBy(candidates, IdAndLevel());
    FirstByDistinct(candidates, IdAndLevel());
    forall e
      ensures e in direct <==>
              e.via.None? && exists t :: t in tuples && t.user == Entity(User, e.id) && t.relation == e.level
    {
      EntriesMatchTuples(tuples, User, e);
    }
    forall e | e in kept ensures e in candidates {
      FirstByMembers(candidates, IdAndLevel(), e);
    }
    if HasDirect(tuples, id) {
      var t :| t in tuples && t.user == Entity(User, id);
      assert Entry(id, t.relation, None) in direct;
    }
    assert HasKey(candidates, IdAndLevel(), (id, level)) <==> HasKey(kept, IdAndLevel(), (id, level));
    if HasKey(kept, IdAndLevel(), (id, level)) {
      var i :| 0 <= i < |kept| && IdAndLevel()(kept[i]) == (id, level);
      assert kept[i] in users;
    }
  }

  /** The body of the inner loop, for one tuple of the organization. */
  method InheritOne(users: seq<Entry>, m: Tuple, org: string, level: Relation, ghost tuples: seq<Tuple>,
                    ghost candidates: seq<Entry>)
    returns (users': seq<Entry>)
    requires Built(users, tuples, candidates)
    ensures Built(users', tuples, candidates + Inheriting(tuples, m, org, level))
  {
    assert candidates + [] == candidates;
    if m.user.kind != User {
      return users;
    }
    ghost var direct, kept := Entries(tuples, User), FirstBy(candidates, IdAndLevel());
    UsersByOrigin(users, tuples, candidates, m.user.id, level);
    var existingDirect := exists u :: u in users && u.id == m.user.id && u.via.None?;
    if existingDirect {
      return users;
    }
    var existingInherited := exists u :: u in users && u.id == m.user.id && u.via.Some? && u.level == level;
    ghost var entry := Entry(m.user.id, level, Some(org));
    assert (candidates + [entry])[..|candidates|] == candidates;
    if existingInherited {
      return users;
    }
    return users + [Entry(m.user.id, level, Some(org))];
  }

  /** The inner loop of `getResourceAccess`. */
  method InheritThrough(users: seq<Entry>, members: seq<Tuple>, org: string, level: Relation, ghost tuples: seq<Tuple>,
                        ghost candidates: seq<Entry>)
    returns (users': seq<Entry>)
    requires Built(users, tuples, candidates) && LastLevel(tuples, org) == Some(level)
    ensures Built(users', tuples, candidates + MemberEntries(tuples, members, org))
  {
    users' := users;
    assert candidates + MemberEntries(tuples, members[..0], org) == candidates;
    for i := 0 to |members|
      invariant Built(users', tuples, candidates + MemberEntries(tuples, members[..i], org))
    {
      MembersNext(tuples, members, i, org, level, candidates);
      ghost var so := candidates + MemberEntries(tuples, members[..i], org);
      users' := InheritOne(users', members[i], org, level, tuples, so);
    }
    assert members[..|members|] == members;
  }

  lemma MembersNext(tuples: seq<Tuple>, members: seq<Tuple>, i: nat, org: string, level: Relation,
                    candidates: seq<Entry>)
    requires i < |members| && LastLevel(tuples, org) == Some(level)
    ensures candidates + MemberEntries(tuples, members[..i + 1], org) ==
            candidates + MemberEntries(tuples, members[..i], org) + Inheriting(tuples, members[i], org, level)
  {
    assert members[..i + 1][..i] == members[..i];
    var before, added := MemberEntries(tuples, members[..i], org), Inheriting(tuples, members[i], org, level);
    assert candidates + (before + added) == candidates + before + added;
  }

  /** `getResourceAccess`: direct entries in tuple order, then each level a user inherits, once. */
  method GetResourceAccess(resourceId: string, read: Reader)
    returns (users: seq<Entry>, assistants: seq<Entry>, organizations: seq<Entry>)
    ensures var tuples := read(Entity(Resource, resourceId));
            && users == Entries(tuples, User) + Inherited(read, tuples)
            && assistants == Entries(tuples, Agent)
            && organizations == Entries(tuples, Organization)
  {
    var tuples := read(Entity(Resource, resourceId));
    var orgs, levels;
    users, assistants, organizations, orgs, levels := ListDirect(tuples);
    assert Candidates(read, tuples, []) == [];
    for n := 0 to |orgs|
      invariant Built(users, tuples, Candidates(read, tuples, orgs[..n]))
    {
      OrgsMatchTuples(tuples, orgs[n]);
      OrgIdsMatchTuples(tuples, orgs[n]);
      assert orgs[..n + 1][..n] == orgs[..n];
      var members := read(Entity(Organization, orgs[n]));
      users := InheritThrough(users, members, orgs[n], levels[orgs[n]], tuples, Candidates(read, tuples, orgs[..n]));
    }
    assert orgs[..|orgs|] == orgs;
  }

  // ----- the view is complete and sound -----

  lemma {:induction false} MemberEntriesMatch(tuples: seq<Tuple>, members: seq<Tuple>, org: string, e: Entry)
    ensures e in MemberEntries(tuples, members, org) <==>
            && e.via == Some(org)
            && LastLevel(tuples, org) == Some(e.level)
            && !HasDirect(tuples, e.id)
            && HasDirect(members, e.id)
  {
    if members != [] && LastLevel(tuples, org).Some? {
      MemberEntriesMatch(tuples, members[..|members| - 1], org, e);
    }
  }

  lemma {:induction false} CandidatesMatch(read: Reader, tuples: seq<Tuple>, orgs: seq<string>, e: Entry)
    ensures e in Candidates(read, tuples, orgs) <==>
            && e.via.Some? && e.via.value in orgs
            && LastLevel(tuples, e.via.value) == Some(e.level)
            && !HasDirect(tuples, e.id)
            && HasDirect(read(Entity(Organization, e.via.value)), e.id)
  {
    if orgs != [] {
      var org := orgs[|orgs| - 1];
      CandidatesMatch(read, tuples, orgs[..|orgs| - 1], e);
      MemberEntriesMatch(tuples, read(Entity(Organization, org)), org, e);
    }
  }

  /** What an inherited entry says is so: the organization it names holds that level on the resource, the user holds a
      tuple on that organization, and none on the resource itself. */
  lemma InheritedEntriesAreSound(read: Reader, tuples: seq<Tuple>, e: Entry)
    requires e in Inherited(read, tuples)
    ensures e.via.Some?
    ensures exists t :: t in tuples && t.user == Entity(Organization, e.via.value) && t.relation == e.level
    ensures LastLevel(tuples, e.via.value) == Some(e.level)
    ensures HasDirect(read(Entity(Organization, e.via.value)), e.id)
    ensures !HasDirect(tuples, e.id)
  {
    FirstByMembers(Candidates(read, tuples, Orgs(tuples)), IdAndLevel(), e);
    CandidatesMatch(read, tuples, Orgs(tuples), e);
    OrgIdsMatchTuples(tuples, e.via.value);
  }

  /** No two inherited entries share user and level. */
  lemma InheritedEntriesAreDistinct(read: Reader, tuples: seq<Tuple>)
    ensures var entries := Inherited(read, tuples);
            forall i, j :: 0 <= i < j < |entries| ==>
              entries[i].id != entries[j].id || entries[i].level != entries[j].level
  {
    var entries := Inherited(read, tuples);
    assert forall i :: 0 <= i < |entries| ==> IdAndLevel()(entries[i]) == (entries[i].id, entries[i].level);
    FirstByDistinct(Candidates(read, tuples, Orgs(tuples)), IdAndLevel());
  }

  /** The user would inherit the level through the organization. */
  ghost predicate Gives(read: Reader, tuples: seq<Tuple>, org: string, id: string, level: Relation) {
    && (exists i :: LastGives(tuples, org, level, i))
    && !HasDirect(tuples, id) && HasDirect(read(Entity(Organization, org)), id)
  }

  lemma GivenIsCandidate(read: Reader, tuples: seq<Tuple>, org: string, id: string, level: Relation)
    ensures Entry(id, level, Some(org)) in MemberEntries(tuples, read(Entity(Organization, org)), org) <==>
            Gives(read, tuples, org, id, level)
    ensures HasKey(MemberEntries(tuples, read(Entity(Organization, org)), org), IdAndLevel(), (id, level)) <==>
            Gives(read, tuples, org, id, level)
  {
    var entries, e := MemberEntries(tuples, read(Entity(Organization, org)), org), Entry(id, level, Some(org));
    MemberEntriesMatch(tuples, read(Entity(Organization, org)), org, e);
    LastLevelIsTheLast(tuples, org, level);
    forall i | 0 <= i < |entries| && IdAndLevel()(entries[i]) == (id, level) ensures entries[i] == e {
      MemberEntriesMatch(tuples, read(Entity(Organization, org)), org, entries[i]);
    }
  }

  lemma {:induction false} KeyOfCandidates(read: Reader, tuples: seq<Tuple>, orgs: seq<string>, id: string,
                                           level: Relation)
    ensures HasKey(Candidates(read, tuples, orgs), IdAndLevel(), (id, level)) <==>
            exists org :: org in orgs && Gives(read, tuples, org, id, level)
  {
    if orgs != [] {
      var front, org := orgs[..|orgs| - 1], orgs[|orgs| - 1];
      KeyOfCandidates(read, tuples, front, id, level);
      GivenIsCandidate(read, tuples, org, id, level);
      HasKeySum(Candidates(read, tuples, front), MemberEntries(tuples, read(Entity(Organization, org)), org),
                IdAndLevel(), (id, level));
    }
  }

  /** The n-th organization is the first through which the user inherits the level. */
  ghost predicate FirstGives(read: Reader, tuples: seq<Tuple>, orgs: seq<string>, e: Entry, n: int) {
    && 0 <= n < |orgs| && e.via == Some(orgs[n]) && Gives(read, tuples, orgs[n], e.id, e.level)
    && forall m :: 0 <= m < n ==> !Gives(read, tuples, orgs[m], e.id, e.level)
  }

  lemma FirstGivesNext(read: Reader, tuples: seq<Tuple>, orgs: seq<string>, e: Entry)
    requires orgs != []
    ensures var front, org := orgs[..|orgs| - 1], orgs[|orgs| - 1];
            (exists n :: FirstGives(read, tuples, orgs, e, n)) <==>
            || (exists n :: FirstGives(read, tuples, front, e, n))
            || (&& e.via == Some(org) && Gives(read, tuples, org, e.id, e.level)
                && !exists o :: o in front && Gives(read, tuples, o, e.id, e.level))
  {
    var k := |orgs| - 1;
    var front := orgs[..k];
    forall n ensures FirstGives(read, tuples, front, e, n) <==> n < k && FirstGives(read, tuples, orgs, e, n) {
    }
    assert (forall m :: 0 <= m < k ==> !Gives(read, tuples, orgs[m], e.id, e.level)) <==>
           !exists o :: o in front && Gives(read, tuples, o, e.id, e.level) by {
      assert forall m :: 0 <= m < k ==> orgs[m] == front[m];
    }
    if e.via == Some(orgs[k]) && Gives(read, tuples, orgs[k], e.id, e.level)
       && !exists o :: o in front && Gives(read, tuples, o, e.id, e.level) {
      assert FirstGives(read, tuples, orgs, e, k);
    }
  }

  lemma {:induction false} KeptExactly(read: Reader, tuples: seq<Tuple>, orgs: seq<string>, e: Entry)
    ensures e in FirstBy(Candidates(read, tuples, orgs), IdAndLevel()) <==>
            exists n :: FirstGives(read, tuples, orgs, e, n)
  {
    if orgs != [] {
      var k := |orgs| - 1;
      var front, org := orgs[..k], orgs[k];
      var before, added := Candidates(read, tuples, front), MemberEntries(tuples, read(Entity(Organization, org)), org);
      KeptExactly(read, tuples, front, e);
      FirstByOfSum(before, added, IdAndLevel(), e);
      KeyOfCandidates(read, tuples, front, e.id, e.level);
      GivenIsCandidate(read, tuples, org, e.id, e.level);
      MemberEntriesMatch(tuples, read(Entity(Organization, org)), org, e);
      FirstOfOneOrg(tuples, read(Entity(Organization, org)), org, e);
      FirstGivesNext(read, tuples, orgs, e);
    }
  }

  /** The entries one organization gives differ only by user. */
  lemma FirstOfOneOrg(tuples: seq<Tuple>, members: seq<Tuple>, org: string, e: Entry)
    ensures e in FirstBy(MemberEntries(tuples, members, org), IdAndLevel()) <==>
            e in MemberEntries(tuples, members, org)
  {
    var entries := MemberEntries(tuples, members, org);
    FirstByDistinct(entries, IdAndLevel());
    if e in entries {
      assert HasKey(entries, IdAndLevel(), (e.id, e.level));
      var kept := FirstBy(entries, IdAndLevel());
      var i :| 0 <= i < |kept| && IdAndLevel()(kept[i]) == (e.id, e.level);
      FirstByMembers(entries, IdAndLevel(), kept[i]);
      MemberEntriesMatch(tuples, members, org, kept[i]);
      MemberEntriesMatch(tuples, members, org, e);
    }
    if e in FirstBy(entries, IdAndLevel()) {
      FirstByMembers(entries, IdAndLevel(), e);
    }
  }

  /** Which entries are inherited: a user without a tuple on the resource inherits the level of an organization that has
      a tuple of the user, through the first organization on the resource that gives this level. */
  lemma InheritedExactly(read: Reader, tuples: seq<Tuple>, e: Entry)
    ensures e in Inherited(read, tuples) <==> exists n :: FirstGives(read, tuples, Orgs(tuples), e, n)
  {
    KeptExactly(read, tuples, Orgs(tuples), e);
  }

  /** Entries come organization by organization, and for each in the order of its tuples. */
  lemma {:induction false} CandidatesInOrder(read: Reader, tuples: seq<Tuple>, a: seq<string>, b: seq<string>)
    ensures Candidates(read, tuples, a + b) == Candidates(read, tuples, a) + Candidates(read, tuples, b)
  {
    if b == [] {
      assert a + b == a;
    } else {
      assert (a + b)[..|a + b| - 1] == a + b[..|b| - 1];
      CandidatesInOrder(read, tuples, a, b[..|b| - 1]);
    }
  }

  lemma {:induction false} MembersInOrder(tuples: seq<Tuple>, a: seq<Tuple>, b: seq<Tuple>, org: string)
    ensures MemberEntries(tuples, a + b, org) == MemberEntries(tuples, a, org) + MemberEntries(tuples, b, org)
  {
    if b == [] {
      assert a + b == a;
    } else {
      assert (a + b)[..|a + b| - 1] == a + b[..|b| - 1];
      MembersInOrder(tuples, a, b[..|b| - 1], org);
    }
  }

  ghost predicate Listed(entries: seq<Entry>, id: string) {
    exists e :: e in entries && e.id == id
  }

  /** Some organization with a tuple on the resource has a tuple of the user. */
  ghost predicate ThroughOrg(read: Reader, tuples: seq<Tuple>, id: string) {
    exists t :: t in tuples && t.user.kind == Organization && HasDirect(read(t.user), id)
  }

  /** A user is listed exactly when some `user:` tuple for it exists on the resource or on an organization holding a
      tuple on the resource. */
  lemma ListedExactly(read: Reader, tuples: seq<Tuple>, id: string)
    ensures Listed(Entries(tuples, User) + Inherited(read, tuples), id) <==>
            HasDirect(tuples, id) || ThroughOrg(read, tuples, id)
  {
    var direct, inherited := Entries(tuples, User), Inherited(read, tuples);
    var all := direct + inherited;
    forall e | e in direct && e.id == id ensures HasDirect(tuples, id) {
      EntriesMatchTuples(tuples, User, e);
    }
    forall e | e in inherited && e.id == id ensures ThroughOrg(read, tuples, id) {
      InheritedEntriesAreSound(read, tuples, e);
    }
    if HasDirect(tuples, id) {
      var t :| t in tuples && t.user == Entity(User, id);
      EntriesMatchTuples(tuples, User, Entry(id, t.relation, None));
      assert Entry(id, t.relation, None) in all;
    } else if ThroughOrg(read, tuples, id) {
      var t :| t in tuples && t.user.kind == Organization && HasDirect(read(t.user), id);
      InheritsThrough(read, tuples, id, t.user.id);
    }
  }

  lemma InheritsThrough(read: Reader, tuples: seq<Tuple>, id: string, org: string)
    requires !HasDirect(tuples, id) && HasDirect(read(Entity(Organization, org)), id)
    requires exists t :: t in tuples && t.user == Entity(Organization, org)
    ensures Listed(Inherited(read, tuples), id)
  {
    OrgIdsMatchTuples(tuples, org);
    OrgsMatchTuples(tuples, org);
    var candidates := Candidates(read, tuples, Orgs(tuples));
    var e := Entry(id, LastLevel(tuples, org).value, Some(org));
    CandidatesMatch(read, tuples, Orgs(tuples), e);
    FirstByDistinct(candidates, IdAndLevel());
    assert HasKey(candidates, IdAndLevel(), (id, e.level));
    var kept := Inherited(read, tuples);
    var i :| 0 <= i < |kept| && IdAndLevel()(kept[i]) == (id, e.level);
    assert kept[i] in kept;
  }

  // ----- explaining one subject -----

  datatype Explanation =
    | NoAccess
    | DirectAccess(level: Relation)
    | InheritedAccess(level: Relation, membership: Membership)

  /** The path through one organization: the user's relation there, and the organization's on the resource. */
  datatype Membership = Membership(memberRelation: Relation, orgId: string, orgRelation: Relation)

  const LEVELS := [Viewer, Editor, Operator]

  predicate HoldsTuple(tuples: seq<Tuple>, user: Entity, relation: Relation) {
    exists t :: t in tuples && t.user == user && t.relation == relation
  }

  /** A path goes through the i-th tuple: an organization of which the user holds a tuple. */
  ghost predicate PathAt(read: Reader, tuples: seq<Tuple>, userId: string, i: int) {
    0 <= i < |tuples| && tuples[i].user.kind == Organization && HasDirect(read(tuples[i].user), userId)
  }

  /** The path is the one through the first such tuple. */
  ghost predicate FirstPath(read: Reader, tuples: seq<Tuple>, userId: string, i: int, path: Membership) {
    && PathAt(read, tuples, userId, i)
    && (forall j :: 0 <= j < i ==> !PathAt(read, tuples, userId, j))
    && tuples[i].user == Entity(Organization, path.orgId)
    && tuples[i].relation == path.orgRelation
    && FirstGiven(read(tuples[i].user), Entity(User, userId), path.memberRelation)
  }

  /** The first tuple of the user gives the relation. */
  ghost predicate FirstGiven(tuples: seq<Tuple>, user: Entity, relation: Relation) {
    exists k :: 0 <= k < |tuples| && tuples[k].user == user && tuples[k].relation == relation
      && forall j :: 0 <= j < k ==> tuples[j].user != user
  }

  /** The store as one remote call sees it: what checks and reads answer then. */
  datatype Moment = Moment(check: Tuple -> bool, read: Reader)

  /** One moment for each remote call, in order; the store may change from one to the next. */
  type Moments = nat -> Moment

  /** The store holds still. */
  ghost predicate Still(world: Moments) {
    forall t :: world(t) == world(0)
  }

  /** At some moment from `start` on the organization held its level, and at a later one the user its relation. */
  ghost predicate PathSeen(world: Moments, userId: string, resource: Entity, path: Membership, start: nat) {
    exists t, u :: start <= t < u
      && HoldsTuple(world(t).read(resource), Entity(Organization, path.orgId), path.orgRelation)
      && HoldsTuple(world(u).read(Entity(Organization, path.orgId)), Entity(User, userId), path.memberRelation)
  }

  lemma FirstFound(tuples: seq<Tuple>, user: Entity)
    requires Find(tuples, (m: Tuple) => m.user == user).Some?
    ensures FirstGiven(tuples, user, Find(tuples, (m: Tuple) => m.user == user).value.relation)
  {
    var wanted := (m: Tuple) => m.user == user;
    FindIsFirst(tuples, wanted);
    var k :| 0 <= k < |tuples| && tuples[k] == Find(tuples, wanted).value && wanted(tuples[k])
             && forall j :: 0 <= j < k ==> !wanted(tuples[j]);
    assert forall j :: 0 <= j < k ==> !wanted(tuples[j]) && tuples[j].user != user;
  }

  /** `findInheritedPath`: the first organization on the resource that the user belongs to, by reads from `start` on. */
  method FindInheritedPath(userId: string, resource: Entity, world: Moments, start: nat)
    returns (path: Option<Membership>, end: nat)
    ensures start < end
    ensures path.Some? ==> PathSeen(world, userId, resource, path.value, start)
    ensures Still(world) ==> (path.None? <==> !ThroughOrg(world(0).read, world(0).read(resource), userId))
    ensures Still(world) && path.Some? ==>
              exists i :: FirstPath(world(0).read, world(0).read(resource), userId, i, path.value)
  {
    var tuples := world(start).read(resource);
    end := start + 1;
    for i := 0 to |tuples|
      invariant start < end
      invariant Still(world) ==> forall j :: 0 <= j < i ==> !PathAt(world(0).read, tuples, userId, j)
    {
      var t := tuples[i];
      if t.user.kind == Organization {
        var orgTuples := world(end).read(t.user);
        var membership := Find(orgTuples, (m: Tuple) => m.user == Entity(User, userId));
        if membership.Some? {
          path := Some(Membership(membership.value.relation, t.user.id, t.relation));
          FirstFound(orgTuples, Entity(User, userId));
          assert HoldsTuple(world(start).read(resource), Entity(Organization, t.user.id), t.relation);
          assert HoldsTuple(world(end).read(t.user), Entity(User, userId), membership.value.relation);
          assert Still(world) ==> FirstPath(world(0).read, tuples, userId, i, path.value);
          return path, end + 1;
        }
        end := end + 1;
      }
    }
    path := None;
    if Still(world) { NoPathMeansNoOrg(world(0).read, tuples, userId); }
  }

  lemma NoPathMeansNoOrg(read: Reader, tuples: seq<Tuple>, userId: string)
    requires forall j :: 0 <= j < |tuples| ==> !PathAt(read, tuples, userId, j)
    ensures !ThroughOrg(read, tuples, userId)
  {
    forall t | t in tuples && t.user.kind == Organization ensures !HasDirect(read(t.user), userId) {
      var j :| 0 <= j < |tuples| && tuples[j] == t;
      assert !PathAt(read, tuples, userId, j);
    }
  }

  /** What lets one level explain the access: the check says yes, and a tuple or a membership shows why. */
  ghost predicate Explains(check: Tuple -> bool, read: Reader, entity: Entity, resource: Entity, level: Relation) {
    && check(Tuple(FgaSubject(entity), level, resource))
    && (HoldsTuple(read(resource), FgaSubject(entity), level)
        || (entity.kind == User && ThroughOrg(read, read(resource), entity.id)))
  }

  ghost predicate FirstLevel(check: Tuple -> bool, read: Reader, entity: Entity, resource: Entity, k: int) {
    && 0 <= k < |LEVELS|
    && Explains(check, read, entity, resource, LEVELS[k])
    && forall j :: 0 <= j < k ==> !Explains(check, read, entity, resource, LEVELS[j])
  }

  /** An answer rests on a check of the level it names, and on a tuple, or the two of a path, read afterwards. */
  ghost predicate Evidenced(world: Moments, entity: Entity, resource: Entity, r: Explanation) {
    match r
    case NoAccess => true
    case DirectAccess(level) =>
      exists t, u :: t < u && CheckedAt(world, entity, resource, level, t)
        && HoldsTuple(world(u).read(resource), FgaSubject(entity), level)
    case InheritedAccess(level, membership) =>
      && entity.kind == User
      && exists t :: CheckedAt(world, entity, resource, level, t) && PathSeen(world, entity.id, resource, membership, t)
  }

  ghost predicate CheckedAt(world: Moments, entity: Entity, resource: Entity, level: Relation, t: nat) {
    level in {Viewer, Editor, Operator} && world(t).check(Tuple(FgaSubject(entity), level, resource))
  }

  /** `explainAccess`. Whatever the store does meanwhile, an answer rests on a check that said yes and on tuples read
      after it. With the store still, it is the first level that explains the access, as a direct one if a tuple says
      so. */
  method ExplainAccess(entity: Entity, resource: Entity, world: Moments) returns (r: Explanation)
    ensures Evidenced(world, entity, resource, r)
    ensures Still(world) ==> Explanatory(world(0).check, world(0).read, entity, resource, r)
  {
    var now := 0;
    for k := 0 to |LEVELS|
      invariant Still(world) ==> NoneBefore(world(0).check, world(0).read, entity, resource, k)
    {
      var level := LEVELS[k];
      var checked := now;
      now := now + 1;
      if world(checked).check(Tuple(FgaSubject(entity), level, resource)) {
        assert CheckedAt(world, entity, resource, level, checked);
        var directTuples := Filter(world(now).read(resource), (t: Tuple) => t.relation == level);
        if exists t :: t in directTuples && t.user == FgaSubject(entity) {
          assert HoldsTuple(world(now).read(resource), FgaSubject(entity), level);
          r := DirectAccess(level);
          if Still(world) { FirstLevelIsFirst(world(0).check, world(0).read, entity, resource, k); }
          return;
        }
        now := now + 1;
        if entity.kind == User {
          var path, end := FindInheritedPath(entity.id, resource, world, now);
          if path.Some? {
            r := InheritedAccess(level, path.value);
            PathSeenSooner(world, entity.id, resource, path.value, now, checked);
            if Still(world) { FirstLevelIsFirst(world(0).check, world(0).read, entity, resource, k); }
            return;
          }
          now := end;
        }
      }
    }
    if Still(world) { NoneLeft(world(0).check, world(0).read, entity, resource); }
    r := NoAccess;
  }

  lemma PathSeenSooner(world: Moments, userId: string, resource: Entity, path: Membership, start: nat, sooner: nat)
    requires sooner <= start && PathSeen(world, userId, resource, path, start)
    ensures PathSeen(world, userId, resource, path, sooner)
  {
  }

  ghost predicate NoneBefore(check: Tuple -> bool, read: Reader, entity: Entity, resource: Entity, k: nat) {
    forall j :: 0 <= j < k && j < |LEVELS| ==> !Explains(check, read, entity, resource, LEVELS[j])
  }

  /** The levels are tried as viewer, then editor, then operator. */
  ghost predicate IsFirst(check: Tuple -> bool, read: Reader, entity: Entity, resource: Entity, level: Relation) {
    && level in {Viewer, Editor, Operator}
    && (level != Viewer ==> !Explains(check, read, entity, resource, Viewer))
    && (level == Operator ==> !Explains(check, read, entity, resource, Editor))
  }

  lemma NoneLeft(check: Tuple -> bool, read: Reader, entity: Entity, resource: Entity)
    requires NoneBefore(check, read, entity, resource, |LEVELS|)
    ensures forall level :: level in {Viewer, Editor, Operator} ==> !Explains(check, read, entity, resource, level)
  {
    assert LEVELS[0] == Viewer && LEVELS[1] == Editor && LEVELS[2] == Operator;
  }

  lemma FirstLevelIsFirst(check: Tuple -> bool, read: Reader, entity: Entity, resource: Entity, k: nat)
    requires k < |LEVELS| && NoneBefore(check, read, entity, resource, k)
    requires Explains(check, read, entity, resource, LEVELS[k])
    ensures FirstLevel(check, read, entity, resource, k) && IsFirst(check, read, entity, resource, LEVELS[k])
  {
    assert LEVELS[0] == Viewer && LEVELS[1] == Editor && LEVELS[2] == Operator;
  }

  /** The answer for a store that holds still. */
  ghost predicate Explanatory(check: Tuple -> bool, read: Reader, entity: Entity, resource: Entity, r: Explanation) {
    && (r.NoAccess? <==>
        forall level :: level in {Viewer, Editor, Operator} ==> !Explains(check, read, entity, resource, level))
    && (!r.NoAccess? ==>
          && IsFirst(check, read, entity, resource, r.level)
          && (exists k :: FirstLevel(check, read, entity, resource, k) && LEVELS[k] == r.level)
          && (r.DirectAccess? <==> HoldsTuple(read(resource), FgaSubject(entity), r.level)))
    && (r.InheritedAccess? ==> exists i :: FirstPath(read, read(resource), entity.id, i, r.membership))
  }
}
