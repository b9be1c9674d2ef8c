/** Creating a group: the name is trimmed and must not be blank, and the
    new document starts with the creator as its only member, progress 0
    and a random garden background. The creation time comes from the
    clock and is not modelled; the random number is a parameter. */
module CreateGroup {
  import opened Common
  import opened JsText
  import Garden

  /** `TOTAL_BACKGROUNDS`. */
  const TotalBackgrounds: int := Garden.GardenCount

  /** The `groupData` document `handleCreateGroup` adds. */
  datatype NewGroup = NewGroup(
    name: string,
    description: string,
    members: seq<string>,
    createdBy: string,
    progress: int,
    backgroundId: int)

  datatype CreateError = MissingGroupName  // "Please enter a group name"

  /** `handleCreateGroup()` up to the write, with `r` the value
      `Math.random()` returned. */
  function CreateGroup(groupName: string, description: string, creatorUid: string, r: real)
    : (res: Result<NewGroup, CreateError>)
    requires 0.0 <= r < 1.0
    ensures res.Failure? <==> AllSpace(groupName)
    ensures res.Success? ==>
              && res.value.name == Trim(groupName) && res.value.name != ""
              && res.value.description == Trim(description)
              && res.value.members == [creatorUid]
              && res.value.createdBy == creatorUid
              && res.value.progress == 0
              && 1 <= res.value.backgroundId <= TotalBackgrounds
  {
    TrimEmptyIffAllSpace(groupName);
    if Trim(groupName) == "" then Failure(MissingGroupName)
    else
      Success(NewGroup(
        Trim(groupName),
        Trim(description),
        [creatorUid],
        creatorUid,
        0,
        Garden.RandomBackgroundId(r)))
  }

  /** Only the name is checked: a blank description is stored as "". */
  lemma BlankDescriptionAccepted(groupName: string, description: string, creatorUid: string, r: real)
    requires 0.0 <= r < 1.0
    requires !AllSpace(groupName) && AllSpace(description)
    ensures CreateGroup(groupName, description, creatorUid, r).Success?
    ensures CreateGroup(groupName, description, creatorUid, r).value.description == ""
  {
    TrimEmptyIffAllSpace(description);
  }

  /** The stored name and description need no further trimming. */
  lemma StoredFieldsAreTrimmed(groupName: string, description: string, creatorUid: string, r: real)
    requires 0.0 <= r < 1.0
    requires CreateGroup(groupName, description, creatorUid, r).Success?
    ensures var g := CreateGroup(groupName, description, creatorUid, r).value;
            Trim(g.name) == g.name && Trim(g.description) == g.description
  {
    TrimIdempotent(groupName);
    TrimIdempotent(description);
  }

  /** The document as the group screen reads it back. */
  function AsStored(g: NewGroup): Garden.GroupDoc {
    Garden.GroupDoc(Some(g.members), Some(g.progress), Some(g.backgroundId), None)
  }

  /** A new group, opened on the group screen: its creator is a member,
      no adventure dot is filled, the first sprout stage shows, the garden
      background is the one drawn, and no background is re-assigned. */
  lemma NewGroupOnGroupScreen(groupName: string, description: string, creatorUid: string, r: real, r': real)
    requires 0.0 <= r < 1.0 && 0.0 <= r' < 1.0
    requires CreateGroup(groupName, description, creatorUid, r).Success?
    ensures var g := CreateGroup(groupName, description, creatorUid, r).value;
            var doc := AsStored(g);
            && Garden.IsMember(doc, creatorUid)
            && Garden.Progress(doc) == 0
            && Garden.CountTrue(Garden.ProgressDots(Garden.Progress(doc))) == 0
            && Garden.SproutKey(doc, Garden.Progress(doc)) == 1
            && Garden.GroupBackground(doc) == Garden.GardenImage(g.backgroundId)
            && Garden.BackgroundAssignment(doc, r') == None
  {
    var g := CreateGroup(groupName, description, creatorUid, r).value;
    Garden.CompletedDots(0);
  }

  /** After five successful adventures the new group's garden shows the
      grown tree of its own background. */
  lemma FiveAdventuresGrowTheTree(groupName: string, description: string, creatorUid: string, r: real,
                                  outcomes: seq<bool>)
    requires 0.0 <= r < 1.0
    requires CreateGroup(groupName, description, creatorUid, r).Success?
    requires Garden.CountTrue(outcomes) >= Garden.MaxProgress
    ensures var g := CreateGroup(groupName, description, creatorUid, r).value;
            var after := Garden.AfterTrips(AsStored(g), outcomes);
            && Garden.Progress(after) == Garden.MaxProgress
            && Garden.SproutKey(after, Garden.Progress(after)) == g.backgroundId
  {
    var g := CreateGroup(groupName, description, creatorUid, r).value;
    var doc := AsStored(g);
    Garden.ProgressCountsSuccesses(doc, outcomes);
    AfterTripsKeepBackground(doc, outcomes);
  }

  lemma {:induction false} AfterTripsKeepBackground(g: Garden.GroupDoc, outcomes: seq<bool>)
    ensures Garden.AfterTrips(g, outcomes).backgroundId == g.backgroundId
    ensures Garden.AfterTrips(g, outcomes).gardenBackground == g.gardenBackground
    decreases |outcomes|
  {
    if outcomes != [] {
      AfterTripsKeepBackground(Garden.AfterTrip(g, outcomes[0]), outcomes[1..]);
    }
  }
}
