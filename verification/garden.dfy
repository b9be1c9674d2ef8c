/** The value computations of the group screen: the capped progress
    counter, the garden background and sprout art chosen from the group
    record, the five progress dots, membership, and how a member's card
    gets its name and plant picture. Reads and writes of the document
    store are left to the caller: these functions take the record as read
    and return the value that would be written. */
module Garden {
  import opened Common
  import opened JsText

  /** The fields of a group document the screen computes with. A missing
      field is `None`; numbers are integers. */
  datatype GroupDoc = GroupDoc(
    members: Option<seq<string>>,
    progress: Option<int>,
    backgroundId: Option<int>,
    gardenBackground: Option<string>)

  /** Number of garden backgrounds, and of sprout pictures (keys 1 to 6). */
  const GardenCount: int := 6

  /** Adventures needed to grow the garden completely. */
  const MaxProgress: int := 5

  /** JavaScript truthiness of a possibly missing number or string. */
  predicate TruthyInt(x: Option<int>) {
    x.Some? && x.value != 0
  }

  predicate TruthyString(x: Option<string>) {
    x.Some? && x.value != ""
  }

  /** `group.progress || 0`. */
  function Progress(g: GroupDoc): (p: int)
    ensures g.progress.None? ==> p == 0
    ensures g.progress.Some? ==> p == g.progress.value
  {
    if TruthyInt(g.progress) then g.progress.value else 0
  }

  // ---- progress ------------------------------------------------------------

  /** The value `updateGroupProgress` writes, if any: one more than the
      current progress while it is below 5, nothing once it has reached 5. */
  function ProgressWrite(g: GroupDoc): (w: Option<int>)
    ensures w.Some? <==> Progress(g) < MaxProgress
    ensures w.Some? ==> w.value == Progress(g) + 1 && w.value <= MaxProgress
  {
    var current := Progress(g);
    if current < MaxProgress then Some(current + 1) else None
  }

  /** The group after a completed trip: progress is updated only when the
      trip succeeded. */
  function AfterTrip(g: GroupDoc, tripSuccess: bool): (r: GroupDoc)
    ensures Progress(g) <= Progress(r)
    ensures Progress(g) <= MaxProgress ==> Progress(r) <= MaxProgress
    ensures Progress(r) == Progress(g) + 1 <==> tripSuccess && Progress(g) < MaxProgress
    ensures !tripSuccess ==> r == g
    ensures r.members == g.members && r.backgroundId == g.backgroundId && r.gardenBackground == g.gardenBackground
  {
    if !tripSuccess then g
    else
      match ProgressWrite(g)
      case Some(p) => g.(progress := Some(p))
      case None => g
  }

  /** Applies `AfterTrip` once per trip outcome, in order. */
  function AfterTrips(g: GroupDoc, outcomes: seq<bool>): GroupDoc
    decreases |outcomes|
  {
    if outcomes == [] then g else AfterTrips(AfterTrip(g, outcomes[0]), outcomes[1..])
  }

  /** Starting from progress p in 0..5, any sequence of trips with k
      successes ends at progress min(p + k, 5). */
  lemma {:induction false} ProgressCountsSuccesses(g: GroupDoc, outcomes: seq<bool>)
    requires Progress(g) <= MaxProgress
    ensures Progress(AfterTrips(g, outcomes)) == Min(Progress(g) + CountTrue(outcomes), MaxProgress)
    decreases |outcomes|
  {
    if outcomes != [] {
      var g' := AfterTrip(g, outcomes[0]);
      ProgressCountsSuccesses(g', outcomes[1..]);
    }
  }

  // ---- background and sprout ------------------------------------------------

  /** `gardenBackground.match(/(\d+)\.png$/)[1]`: the digits right before a
      final ".png", as many as there are. */
  function LegacyDigits(name: string): (d: Option<string>)
    ensures d.Some? ==> |d.value| > 0 && AllDigits(d.value)
    ensures d.Some? ==>
              && |name| >= 4 + |d.value| && name[|name| - 4..] == ".png"
              && name[|name| - 4 - |d.value|..|name| - 4] == d.value
              && (|name| == 4 + |d.value| || !IsDigit(name[|name| - 5 - |d.value|]))
    ensures d.Some? <==> |name| >= 5 && name[|name| - 4..] == ".png" && IsDigit(name[|name| - 5])
  {
    if |name| >= 4 && name[|name| - 4..] == ".png" then
      var run := TrailingDigits(name[..|name| - 4]);
      if run == [] then None else Some(run)
    else None
  }

  /** The longest suffix of `s` made of decimal digits. */
  function TrailingDigits(s: string): (r: string)
    ensures |r| <= |s| && r == s[|s| - |r|..] && AllDigits(r)
    ensures |r| < |s| ==> !IsDigit(s[|s| - |r| - 1])
  {
    if |s| > 0 && IsDigit(s[|s| - 1]) then TrailingDigits(s[..|s| - 1]) + [s[|s| - 1]] else []
  }

  /** The regular expression captures exactly the digit run in front of
      ".png" when the text before that run does not end in a digit. */
  lemma {:induction false} LegacyDigitsOf(prefix: string, digits: string)
    requires |digits| > 0 && AllDigits(digits)
    requires prefix == [] || !IsDigit(prefix[|prefix| - 1])
    ensures LegacyDigits(prefix + digits + ".png") == Some(digits)
  {
    var name := prefix + digits + ".png";
    assert name[|name| - 4..] == ".png";
    assert name[..|name| - 4] == prefix + digits;
    TrailingDigitsOf(prefix, digits);
  }

  lemma {:induction false} TrailingDigitsOf(prefix: string, digits: string)
    requires AllDigits(digits)
    requires prefix == [] || !IsDigit(prefix[|prefix| - 1])
    ensures TrailingDigits(prefix + digits) == digits
    decreases |digits|
  {
    var s := prefix + digits;
    if digits == [] {
      assert s == prefix;
    } else {
      var init := digits[..|digits| - 1];
      assert s[..|s| - 1] == prefix + init;
      assert s[|s| - 1] == digits[|digits| - 1];
      assert IsDigit(s[|s| - 1]);
      TrailingDigitsOf(prefix, init);
      assert TrailingDigits(s) == TrailingDigits(prefix + init) + [s[|s| - 1]];
      assert init + [digits[|digits| - 1]] == digits;
    }
  }

  /** A name that does not end in ".png" has no legacy background id. */
  lemma LegacyDigitsNeedPng(name: string)
    requires !(|name| >= 4 && name[|name| - 4..] == ".png")
    ensures LegacyDigits(name) == None
  {
  }

  /** `parseInt` of the captured digits. */
  function LegacyId(g: GroupDoc): (r: Option<int>)
    ensures r.Some? <==> TruthyString(g.gardenBackground) && LegacyDigits(g.gardenBackground.value).Some?
    ensures r.Some? ==> r.value >= 0
  {
    if !TruthyString(g.gardenBackground) then None
    else
      match LegacyDigits(g.gardenBackground.value)
      case None => None
      case Some(d) => DigitsParse(d); ParseInt(d)
  }

  lemma LegacyIdIsDecimal(g: GroupDoc)
    requires TruthyString(g.gardenBackground) && LegacyDigits(g.gardenBackground.value).Some?
    ensures LegacyId(g) == Some(DecimalValue(LegacyDigits(g.gardenBackground.value).value))
  {
    DigitsParse(LegacyDigits(g.gardenBackground.value).value);
  }

  predicate IsGardenKey(k: int) {
    1 <= k <= GardenCount
  }

  datatype Backdrop = GardenImage(key: int) | SkyImage

  /** `getGroupBackground()`: the garden picture of a truthy `backgroundId`
      that is a key 1..6, else of the id in a legacy `gardenBackground`
      name that is a key, else the sky. */
  function GroupBackground(g: GroupDoc): (b: Backdrop)
    ensures b.GardenImage? ==> IsGardenKey(b.key)
    ensures TruthyInt(g.backgroundId) && IsGardenKey(g.backgroundId.value) ==> b == GardenImage(g.backgroundId.value)
    ensures b == SkyImage <==>
              !(TruthyInt(g.backgroundId) && IsGardenKey(g.backgroundId.value))
              && !(LegacyId(g).Some? && IsGardenKey(LegacyId(g).value))
    ensures (!(TruthyInt(g.backgroundId) && IsGardenKey(g.backgroundId.value))
             && LegacyId(g).Some? && IsGardenKey(LegacyId(g).value))
            ==> b == GardenImage(LegacyId(g).value)
  {
    if TruthyInt(g.backgroundId) && IsGardenKey(g.backgroundId.value) then GardenImage(g.backgroundId.value)
    else if LegacyId(g).Some? && IsGardenKey(LegacyId(g).value) then GardenImage(LegacyId(g).value)
    else SkyImage
  }

  /** The background id `getSproutImageForProgress` uses, by precedence:
      a truthy `backgroundId`, else the legacy name's digits, else 1. */
  function SproutBackgroundId(g: GroupDoc): (id: int)
    ensures TruthyInt(g.backgroundId) ==> id == g.backgroundId.value
    ensures !TruthyInt(g.backgroundId) ==> id >= 0
    ensures !TruthyInt(g.backgroundId) && LegacyId(g).Some? ==> id == LegacyId(g).value
    ensures !TruthyInt(g.backgroundId) && LegacyId(g).None? ==> id == 1
  {
    if TruthyInt(g.backgroundId) then g.backgroundId.value
    else if LegacyId(g).Some? then LegacyId(g).value
    else 1
  }

  /** The growth stage shown for a progress value, 1 to 6. */
  function Stage(progress: int): (stage: int)
    ensures 1 <= stage <= GardenCount
    ensures 0 <= progress < GardenCount ==> stage == progress + 1
    ensures stage == GardenCount <==> progress >= MaxProgress
  {
    Clamp(progress + 1, 1, GardenCount)
  }

  /** `getSproutImageForProgress(progress)`: the key of the sprout picture.
      The final stage shows the tree matching the (clamped) background id;
      earlier stages show the sprout of that stage. */
  function SproutKey(g: GroupDoc, progress: int): (k: int)
    ensures IsGardenKey(k)
  {
    var backgroundId := Clamp(SproutBackgroundId(g), 1, GardenCount);
    var stage := Stage(progress);
    if stage == GardenCount then backgroundId else stage
  }

  /** Below 5 adventures the sprout shows stage progress + 1 whatever the
      background; from 5 on it shows the tree of the background, so every
      background keeps its own tree. */
  lemma SproutFollowsProgress(g: GroupDoc, progress: int)
    ensures 0 <= progress < MaxProgress ==> SproutKey(g, progress) == progress + 1
    ensures progress < 0 ==> SproutKey(g, progress) == 1
    ensures progress >= MaxProgress ==> SproutKey(g, progress) == Clamp(SproutBackgroundId(g), 1, GardenCount)
    ensures (progress >= MaxProgress && TruthyInt(g.backgroundId) && IsGardenKey(g.backgroundId.value))
              ==> SproutKey(g, progress) == g.backgroundId.value
  {
  }

  /** When the backdrop is a garden and `backgroundId` is not an
      out-of-range truthy number, the grown tree matches the backdrop. */
  lemma TreeMatchesBackdrop(g: GroupDoc)
    requires GroupBackground(g).GardenImage?
    requires TruthyInt(g.backgroundId) ==> IsGardenKey(g.backgroundId.value)
    ensures SproutKey(g, MaxProgress) == GroupBackground(g).key
  {
  }

  /** The two choices disagree for an out-of-range `backgroundId`: 9 with
      a legacy "garden3.png" shows garden 3 behind the tree of garden 6. */
  lemma BackdropAndTreeCanDisagree()
    ensures var g := GroupDoc(None, Some(5), Some(9), Some("garden3.png"));
            GroupBackground(g) == GardenImage(3) && SproutKey(g, Progress(g)) == 6
  {
    var g := GroupDoc(None, Some(5), Some(9), Some("garden3.png"));
    LegacyIdOfGarden3(g);
    assert SproutBackgroundId(g) == 9;
    assert Stage(Progress(g)) == GardenCount;
  }

  lemma LegacyIdOfGarden3(g: GroupDoc)
    requires g.gardenBackground == Some("garden3.png")
    ensures LegacyId(g) == Some(3)
  {
    Garden3Digits();
    LegacyIdIsDecimal(g);
    DecimalThree();
  }

  lemma Garden3Digits()
    ensures LegacyDigits("garden3.png") == Some("3")
  {
    LegacyDigitsOf("garden", "3");
    assert "garden" + "3" + ".png" == "garden3.png";
  }

  lemma DecimalThree()
    ensures DecimalValue("3") == 3
  {
    assert "3"[..0] == [];
    assert DecimalValue("3") == RadixValue([], 10) * 10 + 3;
  }

  /** A grown garden 3: five adventures and `backgroundId` 3 show garden
      3 behind the tree of garden 3. */
  lemma GrownGardenThree()
    ensures var g := GroupDoc(Some(["founder"]), Some(5), Some(3), None);
            && GroupBackground(g) == GardenImage(3)
            && (TruthyInt(g.backgroundId) ==> IsGardenKey(g.backgroundId.value))
            && SproutKey(g, Progress(g)) == 3
  {
  }

  /** `assignBackgroundToGroup`: `Math.floor(r * 6) + 1` for the random
      number `r` in [0, 1). */
  function RandomBackgroundId(r: real): (k: int)
    requires 0.0 <= r < 1.0
    ensures IsGardenKey(k)
  {
    (r * GardenCount as real).Floor + 1
  }

  /** Each id 1..6 is drawn for the sixth of [0, 1) that maps to it. */
  lemma RandomBackgroundIdCovers(k: int)
    requires IsGardenKey(k)
    ensures var r := (k - 1) as real / GardenCount as real; 0.0 <= r < 1.0 && RandomBackgroundId(r) == k
  {
  }

  /** The id a snapshot listener writes when the document has no truthy
      `backgroundId`. */
  function BackgroundAssignment(g: GroupDoc, r: real): (w: Option<int>)
    requires 0.0 <= r < 1.0
    ensures w.Some? <==> !TruthyInt(g.backgroundId)
    ensures w.Some? ==> IsGardenKey(w.value)
  {
    if TruthyInt(g.backgroundId) then None else Some(RandomBackgroundId(r))
  }

  // ---- progress dots ----------------------------------------------------------

  /** The five dots, dot `i` completed when `i < progress`. */
  function ProgressDots(progress: int): (dots: seq<bool>)
    ensures |dots| == MaxProgress
    ensures forall i :: 0 <= i < MaxProgress ==> (dots[i] <==> i < progress)
  {
    seq(MaxProgress, i => i < progress)
  }

  function CountTrue(s: seq<bool>): nat {
    if s == [] then 0 else (if s[0] then 1 else 0) + CountTrue(s[1..])
  }

  /** Exactly progress-many dots are completed, clamped to 0..5. */
  lemma CompletedDots(progress: int)
    ensures CountTrue(ProgressDots(progress)) == Clamp(progress, 0, MaxProgress)
  {
    assert ProgressDots(progress) == seq(MaxProgress, i => i < progress);
    DotsBelow(MaxProgress, progress);
  }

  lemma {:induction false} DotsBelow(n: nat, p: int)
    ensures CountTrue(seq(n, i => i < p)) == Clamp(p, 0, n)
  {
    if n > 0 {
      var d := seq(n, i => i < p);
      assert d[1..] == seq(n - 1, i => i < p - 1);
      DotsBelow(n - 1, p - 1);
    }
  }

  // ---- members --------------------------------------------------------------

  /** `(group.members || []).includes(uid)`. */
  function IsMember(g: GroupDoc, uid: string): (b: bool)
    ensures b <==> g.members.Some? && uid in g.members.value
    ensures g.members == None ==> !b
  {
    uid in g.members.GetOr([])
  }

  /** The string-valued fields of a user profile document. */
  type Profile = map<string, string>

  datatype ProfileFetch = Found(data: Profile) | NotFound | FetchFailed

  /** A member card: `{ id, name, ...profile }`, where the profile's own
      `id`, `name` and `plantMatch` fields win. `name` is `None` when it is
      undefined. */
  datatype MemberCard = MemberCard(id: string, name: Option<string>, plantMatch: Option<string>)

  /** `User ${userId.slice(0, 5)}`. */
  function FallbackName(uid: string): (n: string)
    ensures n == "User " + uid[..Min(5, |uid|)]
    ensures |n| <= 10
  {
    "User " + SlicePrefix(uid, 5)
  }

  /** The object spread: fields of the profile replace the base fields. */
  function Spread(uid: string, name: Option<string>, profile: Profile): (c: MemberCard)
    ensures c.id == (if "id" in profile then profile["id"] else uid)
    ensures c.name == (if "name" in profile then Some(profile["name"]) else name)
    ensures c.plantMatch == (if "plantMatch" in profile then Some(profile["plantMatch"]) else None)
  {
    MemberCard(
      if "id" in profile then profile["id"] else uid,
      if "name" in profile then Some(profile["name"]) else name,
      if "plantMatch" in profile then Some(profile["plantMatch"]) else None)
  }

  /** The card `fetchMembersProfiles` builds for one member id: the signed
      in user's own profile when there is one, else the stored profile
      with the username (falling back to "User " + five characters of the
      id), else just the fallback name. */
  function MemberCardFor(uid: string, currentUid: string, ownProfile: Option<Profile>, fetch: ProfileFetch): (c: MemberCard)
    ensures c.name.Some? || (uid == currentUid && ownProfile.Some?)
    ensures uid == currentUid && ownProfile.Some? ==>
              c.name == (if "name" in ownProfile.value then Some(ownProfile.value["name"])
                         else if "username" in ownProfile.value then Some(ownProfile.value["username"])
                         else None)
    ensures !(uid == currentUid && ownProfile.Some?) && !fetch.Found? ==>
              c == MemberCard(uid, Some(FallbackName(uid)), None)
    ensures uid == currentUid && ownProfile.Some? ==>
              && c.id == (if "id" in ownProfile.value then ownProfile.value["id"] else uid)
              && c.plantMatch == (if "plantMatch" in ownProfile.value then Some(ownProfile.value["plantMatch"]) else None)
    ensures fetch.Found? && !(uid == currentUid && ownProfile.Some?) ==>
              && c.id == (if "id" in fetch.data then fetch.data["id"] else uid)
              && c.plantMatch == (if "plantMatch" in fetch.data then Some(fetch.data["plantMatch"]) else None)
    ensures fetch.Found? && !(uid == currentUid && ownProfile.Some?) && "name" in fetch.data ==>
              c.name == Some(fetch.data["name"])
  {
    if uid == currentUid && ownProfile.Some? then
      var p := ownProfile.value;
      Spread(uid, if "username" in p then Some(p["username"]) else None, p)
    else
      match fetch
      case Found(p) =>
        Spread(uid, Some(if "username" in p && p["username"] != "" then p["username"] else FallbackName(uid)), p)
      case NotFound => MemberCard(uid, Some(FallbackName(uid)), None)
      case FetchFailed => MemberCard(uid, Some(FallbackName(uid)), None)
  }

  /** A member shown without a profile, or whose stored profile has no
      name and no username, is called "User " plus the first five
      characters of the id. */
  lemma MemberNameFallback(uid: string, currentUid: string, ownProfile: Option<Profile>, fetch: ProfileFetch)
    requires !(uid == currentUid && ownProfile.Some?)
    requires fetch.Found? ==> "name" !in fetch.data && ("username" !in fetch.data || fetch.data["username"] == "")
    ensures MemberCardFor(uid, currentUid, ownProfile, fetch).name == Some("User " + uid[..Min(5, |uid|)])
  {
  }

  /** A stored username is shown as is unless the profile carries its own
      `name`, which wins because it is spread last. */
  lemma StoredUsernameShown(uid: string, currentUid: string, ownProfile: Option<Profile>, p: Profile)
    requires !(uid == currentUid && ownProfile.Some?)
    requires "username" in p && p["username"] != ""
    ensures MemberCardFor(uid, currentUid, ownProfile, Found(p)).name
            == Some(if "name" in p then p["name"] else p["username"])
  {
  }

  /** `fetchMembersProfiles(memberIds)`: one card per id in order; an empty
      id list returns early and leaves the shown cards as they were. */
  function MemberCards(memberIds: seq<string>, shown: seq<MemberCard>, currentUid: string,
                       ownProfile: Option<Profile>, lookup: string -> ProfileFetch): (cards: seq<MemberCard>)
    ensures memberIds == [] ==> cards == shown
    ensures memberIds != [] ==> |cards| == |memberIds|
    ensures memberIds != [] ==> forall i :: 0 <= i < |memberIds| ==>
              cards[i] == MemberCardFor(memberIds[i], currentUid, ownProfile, lookup(memberIds[i]))
  {
    if memberIds == [] then shown
    else seq(|memberIds|, i requires 0 <= i < |memberIds| => MemberCardFor(memberIds[i], currentUid, ownProfile, lookup(memberIds[i])))
  }

  /** The `plants` table: plant id to picture file, with a `default` entry. */
  const PlantPictures: map<string, string> := map[
    "blueRose" := "blue-rose.gif", "moonflower" := "moonflower.gif",
    "blackDahlia" := "black-dahlia.gif", "hellebore" := "hellebore.gif",
    "bonsai" := "bonsai.gif", "orchid" := "orchid.gif", "bamboo" := "bamboo.gif",
    "japaneseMaple" := "japanese-maple.gif", "ginkgoTree" := "ginkgo-tree.gif",
    "aloeVera" := "aloe-vera.gif", "lavender" := "lavender.gif",
    "rosemary" := "rosemary.gif", "chamomile" := "chamomile.gif",
    "sunflower" := "sunflower.gif", "cherryBlossom" := "cherry-blossom.gif",
    "hibiscus" := "hibiscus.gif",
    "marigold" := "marigold.gif", "amaryllis" := "amaryllis.gif",
    "dandelion" := "dandelion.gif", "fireLily" := "fire-lily.gif",
    "bleedingHeart" := "bleeding-heart.gif", "birdOfParadise" := "bird-of-paradise.gif",
    "wisteria" := "wisteria.gif", "poppy" := "poppy.gif",
    "default" := "default-plant.gif"
  ]

  /** `renderMemberItem`: the member's plant picture when the table has
      their `plantMatch`, else the default picture. */
  function MemberPlantPicture(card: MemberCard): (pic: string)
    ensures pic in PlantPictures.Values
    ensures card.plantMatch.Some? && card.plantMatch.value in PlantPictures ==> pic == PlantPictures[card.plantMatch.value]
    ensures !(card.plantMatch.Some? && card.plantMatch.value in PlantPictures) ==> pic == "default-plant.gif"
  {
    if TruthyString(card.plantMatch) && card.plantMatch.value in PlantPictures then PlantPictures[card.plantMatch.value]
    else PlantPictures["default"]
  }
}
