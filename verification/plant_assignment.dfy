/** The plant-assignment screen shown after the quiz: it looks the quiz's
    `plantMatch` up in its own plant table, falls back to a "Mystery Plant"
    card, and passes `plantMatch` on to account creation unchanged. Only
    the bamboo entry of that table is live; the others are commented out in
    the screen. */
module PlantAssignment {
  import Quiz
  import Onboarding
  import Garden

  datatype PlantCard = PlantCard(name: string, image: string, description: string)

  /** `plantData`, with each `require`d image written as its file name. */
  const PlantData: map<string, PlantCard> := map[
    "bamboo" := PlantCard(
      "Bamboo",
      "bamboo.gif",
      "Bamboo is both flexible and incredibly strong. You adapt to changing circumstances while maintaining your core principles. Your measured responses and ability to bend without breaking make you resilient in any situation.")
  ]

  /** The card shown when `plantData` has no entry. */
  const MysteryPlant: PlantCard := PlantCard(
    "Mystery Plant",
    "default-plant.gif",
    "A rare and unique plant that matches your personality. Its special qualities will be revealed soon!")

  /** `plantData[plantMatch] || {...}`: every entry is a non-empty object,
      hence truthy, so the fallback applies exactly to missing keys. */
  function PlantFor(plantMatch: string): (card: PlantCard)
    ensures card.name != "" && card.image != "" && card.description != ""
    ensures card == MysteryPlant <==> plantMatch != "bamboo"
  {
    if plantMatch in PlantData then PlantData[plantMatch] else MysteryPlant
  }

  datatype Route = CreateAccount(plantMatch: string)

  /** `handleContinue()`. */
  function Continue(plantMatch: string): (r: Route)
    ensures r.plantMatch == plantMatch
  {
    CreateAccount(plantMatch)
  }

  /** Of the 24 plants the quiz can assign, only bamboo gets its own card;
      every other outcome shows the Mystery Plant. */
  lemma OnlyBambooHasACard(plantMatch: string)
    requires plantMatch in Quiz.SecondaryOptions
    ensures PlantFor(plantMatch).name == "Bamboo" <==> plantMatch == "bamboo"
    ensures plantMatch != "bamboo" ==> PlantFor(plantMatch).image == "default-plant.gif"
  {
  }

  /** The group screen knows a picture for every plant the quiz can
      assign, so the picture this screen shows agrees with the group
      screen's exactly for bamboo. */
  lemma PictureAgreesWithGroupScreen(plantMatch: string)
    requires plantMatch in Quiz.SecondaryOptions
    ensures plantMatch in Garden.PlantPictures
    ensures PlantFor(plantMatch).image == Garden.PlantPictures[plantMatch] <==> plantMatch == "bamboo"
  {
    if plantMatch != "bamboo" {
      GroupPictureIsNotDefault(plantMatch);
    }
  }

  lemma GroupPictureIsNotDefault(plantMatch: string)
    requires plantMatch in Quiz.SecondaryOptions
    ensures plantMatch in Garden.PlantPictures
    ensures Garden.PlantPictures[plantMatch] != "default-plant.gif"
  {
  }

  /** From a quiz finish to this screen: the plant matched is one the quiz
      offers, and Continue hands it to account creation unchanged. */
  lemma QuizFinishToAccount(z: Onboarding.Wizard)
    requires Onboarding.Inv(z) && z.step == Onboarding.SecondaryStep && Onboarding.HasSelection(z)
    ensures Onboarding.Next(z).Completed?
    ensures var m := Onboarding.Next(z).plantMatch;
            && m in Quiz.SecondaryOptions
            && Continue(m).plantMatch == m
            && (PlantFor(m) == MysteryPlant <==> m != "bamboo")
  {
    Onboarding.FinishCompletes(z);
  }

  /** The nurturing quiz that ends on aloe vera shows the Mystery Plant
      card, and account creation still receives "aloeVera". */
  lemma NurturingQuizShowsMysteryPlant()
    ensures var out := Onboarding.Next(Onboarding.Wizard(Onboarding.SecondaryStep, Onboarding.NurturingAnswers));
            && out.Completed?
            && PlantFor(out.plantMatch) == MysteryPlant
            && Continue(out.plantMatch) == CreateAccount("aloeVera")
  {
    Onboarding.NurturingFinish();
  }
}
