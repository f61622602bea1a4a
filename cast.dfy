/**
 * `EncoraCastMember.MapCastToResult`: every cast member with a performer name
 * becomes an actor of the result, in cast order, with the character as role
 * (prefixed by the status abbreviation) and the first matching StageMedia
 * headshot as image; the recording's master is appended as director when the
 * setting asks for it and the master is not one of the generic source labels.
 */
module Cast {
  import opened Wrappers
  import opened Text
  import opened Models
  import opened Entities

  /** A member that is mapped: its performer has a name that is not blank. */
  predicate IsNamed(member: EncoraCastMember) {
    member.performer.Some? && !IsNullOrWhiteSpace(member.performer.value.name)
  }

  /** `Character?.Name`. */
  function CharacterName(member: EncoraCastMember): Option<string> {
    if member.character.None? then None else member.character.value.name
  }

  /** The status abbreviation when it is a non-empty string. */
  function Abbreviation(member: EncoraCastMember): Option<string> {
    if member.status.Some? && member.status.value.abbreviation.Some?
      && |member.status.value.abbreviation.value| > 0
    then member.status.value.abbreviation
    else None
  }

  /** The role: the character name, or `"<abbreviation> <character>"` (a missing
      character leaves the abbreviation and a space). */
  function Role(member: EncoraCastMember): Option<string> {
    match Abbreviation(member)
    case None => CharacterName(member)
    case Some(abbr) => Some(abbr + " " + CharacterName(member).GetOr(""))
  }

  /** The first headshot carrying `id`, as `FirstOrDefault` finds it. */
  function FirstHeadshot(headshots: seq<StageMediaPerformer>, id: int): (h: Option<StageMediaPerformer>)
    ensures h.Some? ==> h.value in headshots && h.value.id == id
    ensures h.None? <==> forall i :: 0 <= i < |headshots| ==> headshots[i].id != id
  {
    if headshots == [] then None
    else if headshots[0].id == id then Some(headshots[0])
    else
      var h := FirstHeadshot(headshots[1..], id);
      assert forall i :: 1 <= i < |headshots| ==> headshots[i] == headshots[1..][i - 1];
      h
  }

  /** The image of a performer: the url of the first headshot with its id, looked up
      only for a positive id and a headshot collection that is present. */
  function HeadshotUrl(id: int, headshots: Option<seq<StageMediaPerformer>>): Option<string> {
    if id > 0 && headshots.Some? then
      match FirstHeadshot(headshots.value, id)
      case None => None
      case Some(h) => h.url
    else None
  }

  /** The actor a named member becomes. */
  function ActorFor(member: EncoraCastMember, headshots: Option<seq<StageMediaPerformer>>): PersonInfo
    requires IsNamed(member)
  {
    var performer := member.performer.value;
    PersonInfo(performer.name.value, Role(member), HeadshotUrl(performer.id, headshots), Actor)
  }

  /** The named members of the cast, in cast order. */
  function Named(cast: seq<EncoraCastMember>): (r: seq<EncoraCastMember>)
    ensures |r| <= |cast|
    ensures forall i :: 0 <= i < |r| ==> IsNamed(r[i]) && r[i] in cast
    ensures forall m :: m in cast && IsNamed(m) ==> m in r
  {
    if cast == [] then []
    else
      var init := cast[..|cast| - 1];
      var last := cast[|cast| - 1];
      assert cast == init + [last];
      Named(init) + (if IsNamed(last) then [last] else [])
  }

  /** The actors the first loop collects, in cast order. */
  function Actors(cast: seq<EncoraCastMember>, headshots: Option<seq<StageMediaPerformer>>): (r: seq<PersonInfo>)
    ensures |r| <= |cast|
    ensures forall i :: 0 <= i < |r| ==> r[i].kind == Actor && !IsBlank(r[i].name)
  {
    if cast == [] then []
    else
      var last := cast[|cast| - 1];
      Actors(cast[..|cast| - 1], headshots) + (if IsNamed(last) then [ActorFor(last, headshots)] else [])
  }

  /** The master labels that name a kind of source rather than a person. */
  const SkippedMasters: set<string> := {"pro-shot", "house-cam", "press-reel", "soundboard"}

  /** `master?.Trim().ToLowerInvariant() ?? ""`. */
  function NormalizedMaster(master: Option<string>): string {
    if master.None? then "" else ToLower(Trim(master.value))
  }

  /** The director entry for the master, when one is added. */
  function MasterDirector(master: Option<string>, addMasterDirector: bool): Option<PersonInfo> {
    if addMasterDirector && NormalizedMaster(master) !in SkippedMasters then
      Some(PersonInfo(master.GetOr(""), Some("Director"), None, Director))
    else None
  }

  /** Everything `MapCastToResult` adds to the result, in the order it adds it. */
  function CastPeople(cast: seq<EncoraCastMember>, headshots: Option<seq<StageMediaPerformer>>,
                      master: Option<string>, addMasterDirector: bool): seq<PersonInfo>
  {
    Actors(cast, headshots)
    + (match MasterDirector(master, addMasterDirector) case None => [] case Some(d) => [d])
  }

  /** The body of the first loop for one member: the actor it becomes, if any. */
  method MapMember(member: EncoraCastMember, headshots: Option<seq<StageMediaPerformer>>)
    returns (person: Option<PersonInfo>)
    ensures person == if IsNamed(member) then Some(ActorFor(member, headshots)) else None
  {
    if member.performer.None? || IsNullOrWhiteSpace(member.performer.value.name) {
      return None;
    }
    var role := CharacterName(member);
    if member.status.Some? && member.status.value.abbreviation.Some?
      && |member.status.value.abbreviation.value| > 0 {
      role := Some(member.status.value.abbreviation.value + " " + CharacterName(member).GetOr(""));
    }
    var actor := PersonInfo(member.performer.value.name.value, role, None, Actor);
    var id := member.performer.value.id;
    if id > 0 && headshots.Some? && FirstHeadshot(headshots.value, id).Some? {
      actor := actor.(imageUrl := FirstHeadshot(headshots.value, id).value.url);
    }
    return Some(actor);
  }

  /** The people `MapCastToResult` collects before adding them: the named members
      in cast order, then the master as director unless it is a source label. */
  method CollectPeople(cast: seq<EncoraCastMember>, headshots: Option<seq<StageMediaPerformer>>,
                       master: Option<string>, addMasterDirector: bool)
    returns (added: seq<PersonInfo>)
    ensures added == CastPeople(cast, headshots, master, addMasterDirector)
  {
    added := [];
    for k := 0 to |cast|
      invariant added == Actors(cast[..k], headshots)
    {
      var person := MapMember(cast[k], headshots);
      if person.Some? {
        added := added + [person.value];
      }
      assert cast[..k + 1][..k] == cast[..k];
    }
    assert cast[..|cast|] == cast;

    if addMasterDirector {
      var normalized := if master.None? then "" else ToLower(Trim(master.value));
      if normalized !in SkippedMasters {
        added := added + [PersonInfo(master.GetOr(""), Some("Director"), None, Director)];
      }
    }
  }

  /** `MapCastToResult`: collect the people, then add each to the result. */
  method MapCastToResult(result: MetadataResult, cast: seq<EncoraCastMember>,
                         headshots: Option<seq<StageMediaPerformer>>, master: Option<string>,
                         addMasterDirector: bool)
    modifies result
    ensures result.people == old(result.people) + CastPeople(cast, headshots, master, addMasterDirector)
    ensures result.hasMetadata == old(result.hasMetadata) && result.item == old(result.item)
  {
    var added := CollectPeople(cast, headshots, master, addMasterDirector);
    for k := 0 to |added|
      invariant result.people == old(result.people) + added[..k]
      invariant result.hasMetadata == old(result.hasMetadata) && result.item == old(result.item)
    {
      result.AddPerson(added[k]);
      assert added[..k + 1] == added[..k] + [added[k]];
    }
    assert added[..|added|] == added;
  }

  // ---------------------------------------------------------------------------
  // Properties

  /** Exactly the named members become actors, one each, in cast order. */
  lemma {:induction false} ActorsFollowNamed(cast: seq<EncoraCastMember>, headshots: Option<seq<StageMediaPerformer>>)
    ensures |Actors(cast, headshots)| == |Named(cast)|
    ensures forall i :: 0 <= i < |Named(cast)| ==> Actors(cast, headshots)[i] == ActorFor(Named(cast)[i], headshots)
  {
    if cast != [] {
      ActorsFollowNamed(cast[..|cast| - 1], headshots);
    }
  }

  /** A cast whose members all have a performer name maps one actor per member. */
  lemma {:induction false} AllNamedAllMapped(cast: seq<EncoraCastMember>, headshots: Option<seq<StageMediaPerformer>>)
    requires forall i :: 0 <= i < |cast| ==> IsNamed(cast[i])
    ensures Named(cast) == cast
    ensures |Actors(cast, headshots)| == |cast|
  {
    if cast != [] {
      AllNamedAllMapped(cast[..|cast| - 1], headshots);
      assert cast[..|cast| - 1] + [cast[|cast| - 1]] == cast;
    }
    ActorsFollowNamed(cast, headshots);
  }

  /** A member without a usable performer name adds nobody. */
  lemma UnnamedAddsNobody(cast: seq<EncoraCastMember>, member: EncoraCastMember, headshots: Option<seq<StageMediaPerformer>>)
    requires !IsNamed(member)
    ensures Actors(cast + [member], headshots) == Actors(cast, headshots)
  {
    assert (cast + [member])[..|cast|] == cast;
  }

  /** With the setting off, only actors are added, one per named member. */
  lemma FlagOffOnlyActors(cast: seq<EncoraCastMember>, headshots: Option<seq<StageMediaPerformer>>, master: Option<string>)
    ensures CastPeople(cast, headshots, master, false) == Actors(cast, headshots)
    ensures |CastPeople(cast, headshots, master, false)| == |Named(cast)|
    ensures forall p :: p in CastPeople(cast, headshots, master, false) ==> p.kind == Actor
  {
    ActorsFollowNamed(cast, headshots);
  }

  /** A status abbreviation is put before the character name with one space. */
  lemma RoleWithAbbreviation(member: EncoraCastMember, abbr: string, character: string)
    requires member.status.Some? && member.status.value.abbreviation == Some(abbr) && |abbr| > 0
    requires CharacterName(member) == Some(character)
    ensures Role(member).Some?
    ensures Role(member).value[..|abbr|] == abbr && Role(member).value[|abbr|] == ' '
    ensures Role(member).value[|abbr| + 1..] == character
  {
  }

  /** Without an abbreviation the role is the character name itself, which may be absent. */
  lemma RoleWithoutAbbreviation(member: EncoraCastMember)
    requires member.status.None? || member.status.value.abbreviation.None?
             || member.status.value.abbreviation == Some("")
    ensures Role(member) == CharacterName(member)
  {
  }

  /** The headshot lookup takes the first headshot carrying the id, whatever follows it. */
  lemma {:induction false} FirstHeadshotAt(headshots: seq<StageMediaPerformer>, id: int, k: nat)
    requires k < |headshots| && headshots[k].id == id
    requires forall j :: 0 <= j < k ==> headshots[j].id != id
    ensures FirstHeadshot(headshots, id) == Some(headshots[k])
  {
    if k > 0 {
      assert headshots[1..][k - 1] == headshots[k];
      FirstHeadshotAt(headshots[1..], id, k - 1);
    }
  }

  /** A named actor with a positive id gets the url of the first matching headshot. */
  lemma HeadshotOfFirstMatch(member: EncoraCastMember, headshots: seq<StageMediaPerformer>, k: nat)
    requires IsNamed(member) && member.performer.value.id > 0
    requires k < |headshots| && headshots[k].id == member.performer.value.id
    requires forall j :: 0 <= j < k ==> headshots[j].id != member.performer.value.id
    ensures ActorFor(member, Some(headshots)).imageUrl == headshots[k].url
  {
    FirstHeadshotAt(headshots, member.performer.value.id, k);
  }

  /** No image without a positive id, without headshots, or without a matching headshot. */
  lemma NoHeadshot(member: EncoraCastMember, headshots: Option<seq<StageMediaPerformer>>)
    requires IsNamed(member)
    requires member.performer.value.id <= 0 || headshots.None?
             || forall i :: 0 <= i < |headshots.value| ==> headshots.value[i].id != member.performer.value.id
    ensures ActorFor(member, headshots).imageUrl.None?
  {
  }

  /** With the setting on, a master that is not a source label is appended as the
      last person, a director named after the master. */
  lemma DirectorAppended(cast: seq<EncoraCastMember>, headshots: Option<seq<StageMediaPerformer>>, master: Option<string>)
    requires NormalizedMaster(master) !in SkippedMasters
    ensures CastPeople(cast, headshots, master, true)
            == Actors(cast, headshots) + [PersonInfo(master.GetOr(""), Some("Director"), None, Director)]
    ensures |CastPeople(cast, headshots, master, true)| == |Named(cast)| + 1
  {
    ActorsFollowNamed(cast, headshots);
  }

  /** A missing master still gives a director, with an empty name. */
  lemma NullMasterIsUnnamedDirector(cast: seq<EncoraCastMember>, headshots: Option<seq<StageMediaPerformer>>)
    ensures CastPeople(cast, headshots, None, true)
            == Actors(cast, headshots) + [PersonInfo("", Some("Director"), None, Director)]
  {
    assert NormalizedMaster(None) == "";
    assert "" !in SkippedMasters by { EmptyNotSkipped(); }
  }

  lemma EmptyNotSkipped()
    ensures "" !in SkippedMasters
  {
  }

  /** A source label, in any case and with white space around it, adds no director. */
  lemma SkippedMasterNoDirector(cast: seq<EncoraCastMember>, headshots: Option<seq<StageMediaPerformer>>,
                                before: string, tag: string, after: string)
    requires IsBlank(before) && IsBlank(after) && Trimmed(tag)
    requires ToLower(tag) in SkippedMasters
    ensures CastPeople(cast, headshots, Some(before + tag + after), true) == Actors(cast, headshots)
  {
    TrimOf(before, tag, after);
  }
}
