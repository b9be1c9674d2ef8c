/** The plant-personality quiz: its question tables and the plurality
    vote `determinePrimaryType` over the letters A to F. Answers are the
    `selectedAnswers` object, a map from question id to option id; the
    question and option texts are presentation and are not modelled. */
module Quiz {
  import opened Common

  /** The six personality letters in the order `counts` lists them
      (Mysterious, Intellectual, Nurturing, Social, Adventurous, Artistic). */
  const Letters: seq<string> := ["A", "B", "C", "D", "E", "F"]

  predicate IsLetter(s: string) {
    s in Letters
  }

  type Answers = map<string, string>

  datatype Question = Question(id: string, options: seq<string>)

  /** The ten primary questions q1 to q10; every one offers the options A to F. */
  const PrimaryQuestions: seq<Question> := [
    Question("q1", Letters), Question("q2", Letters), Question("q3", Letters),
    Question("q4", Letters), Question("q5", Letters), Question("q6", Letters),
    Question("q7", Letters), Question("q8", Letters), Question("q9", Letters),
    Question("q10", Letters)
  ]

  /** `secondaryQuestions[letter]`: one follow-up question per letter whose
      option ids are plant ids. Any other key has no entry. */
  function SecondaryQuestion(t: string): (q: Option<Question>)
    ensures q.Some? <==> IsLetter(t)
  {
    if t == "A" then Some(Question("secondaryA", ["blueRose", "moonflower", "blackDahlia", "hellebore"]))
    else if t == "B" then Some(Question("secondaryB", ["bonsai", "orchid", "bamboo", "japaneseMaple", "ginkgoTree"]))
    else if t == "C" then Some(Question("secondaryC", ["aloeVera", "lavender", "rosemary", "chamomile"]))
    else if t == "D" then Some(Question("secondaryD", ["sunflower", "rosemary", "cherryBlossom", "hibiscus"]))
    else if t == "E" then Some(Question("secondaryE", ["marigold", "amaryllis", "dandelion", "fireLily"]))
    else if t == "F" then Some(Question("secondaryF", ["bleedingHeart", "birdOfParadise", "wisteria", "poppy"]))
    else None
  }

  /** Every plant id a secondary question offers. */
  const SecondaryOptions: set<string> := {
    "blueRose", "moonflower", "blackDahlia", "hellebore",
    "bonsai", "orchid", "bamboo", "japaneseMaple", "ginkgoTree",
    "aloeVera", "lavender", "rosemary", "chamomile",
    "sunflower", "cherryBlossom", "hibiscus",
    "marigold", "amaryllis", "dandelion", "fireLily",
    "bleedingHeart", "birdOfParadise", "wisteria", "poppy"
  }

  /** The primary ids are distinct. */
  lemma PrimaryIdsDistinct(i: nat, j: nat)
    requires i < j < |PrimaryQuestions|
    ensures PrimaryQuestions[i].id != PrimaryQuestions[j].id
  {
  }

  /** No secondary question id is a primary question id. */
  lemma SecondaryIdNotPrimary(t: string, i: nat)
    requires IsLetter(t) && i < |PrimaryQuestions|
    ensures SecondaryQuestion(t).value.id != PrimaryQuestions[i].id
  {
    assert SecondaryQuestion(t).value.id[0] == 's';
    assert PrimaryQuestions[i].id[0] == 'q';
  }

  /** Distinct letters have distinct secondary question ids. */
  lemma SecondaryIdsDistinct(t: string, u: string)
    requires IsLetter(t) && IsLetter(u) && t != u
    ensures SecondaryQuestion(t).value.id != SecondaryQuestion(u).value.id
  {
    assert SecondaryQuestion(t).value.id[9] != SecondaryQuestion(u).value.id[9];
  }

  /** A secondary option is a non-empty plant id and never a letter, so
      storing it cannot change the vote. */
  lemma SecondaryOptionIsPlant(t: string, o: string)
    requires IsLetter(t) && o in SecondaryQuestion(t).value.options
    ensures o in SecondaryOptions && o != "" && !IsLetter(o)
  {
    SecondaryOptionListed(t, o);
    assert |o| > 1;
  }

  lemma SecondaryOptionListed(t: string, o: string)
    requires IsLetter(t) && o in SecondaryQuestion(t).value.options
    ensures o in SecondaryOptions
  {
  }

  // ---- scoring ---------------------------------------------------------

  /** How many questions were answered with `letter`. */
  function Count(answers: Answers, letter: string): nat {
    |set q | q in answers && answers[q] == letter|
  }

  /** The six letter counts in the order `Object.entries(counts)` lists
      the letters: slot `j` is the number of questions answered with
      `Letters[j]`. */
  function Tally(answers: Answers): (counts: seq<nat>)
    ensures |counts| == |Letters|
    ensures forall j :: 0 <= j < |Letters| ==> counts[j] == Count(answers, Letters[j])
  {
    seq(|Letters|, j requires 0 <= j < |Letters| => Count(answers, Letters[j]))
  }

  /** The position of a letter in `Letters`. */
  function LetterIndex(v: string): (j: nat)
    requires IsLetter(v)
    ensures j < |Letters| && Letters[j] == v
  {
    if v == "A" then 0 else if v == "B" then 1 else if v == "C" then 2
    else if v == "D" then 3 else if v == "E" then 4 else 5
  }

  /** The counting loop `Object.values(answers).forEach(answer =>
      counts[answer]++)` over the six letter slots, with `keys` the order in
      which the object lists its keys. A letter answer adds one to its
      slot. Any other answer adds a fresh `NaN` entry to `counts`; `NaN`
      never compares greater than the running maximum, so those entries
      never change the scan and are not kept here. */
  function CountLoop(answers: Answers, keys: seq<string>): (counts: seq<nat>)
    requires forall k :: k in keys ==> k in answers
    ensures |counts| == |Letters|
    ensures forall j :: 0 <= j < |Letters| ==> counts[j] <= |keys|
    decreases |keys|
  {
    if keys == [] then [0, 0, 0, 0, 0, 0]
    else
      var counts := CountLoop(answers, keys[..|keys| - 1]);
      var answer := answers[keys[|keys| - 1]];
      if IsLetter(answer) then counts[LetterIndex(answer) := counts[LetterIndex(answer)] + 1]
      else counts
  }

  /** `keys` lists every key of `answers` exactly once. */
  ghost predicate ListsKeys(answers: Answers, keys: seq<string>) {
    && (forall a, b :: 0 <= a < b < |keys| ==> keys[a] != keys[b])
    && (forall k :: k in answers <==> k in keys)
  }

  /** After the loop has visited `keys`, slot `j` counts the visited
      questions answered with `Letters[j]`. */
  lemma {:induction false} CountLoopCounts(answers: Answers, keys: seq<string>, j: nat)
    requires forall k :: k in keys ==> k in answers
    requires forall a, b :: 0 <= a < b < |keys| ==> keys[a] != keys[b]
    requires j < |Letters|
    ensures CountLoop(answers, keys)[j] == |set k | k in keys && answers[k] == Letters[j]|
    decreases |keys|
  {
    if keys != [] {
      var p := keys[..|keys| - 1];
      var x := keys[|keys| - 1];
      assert keys == p + [x];
      CountLoopCounts(answers, p, j);
      CountLoopStep(answers, keys, j);
      VotersStep(answers, p, x, Letters[j]);
    }
  }

  /** One turn of the loop adds one to slot `j` exactly when the visited
      answer is `Letters[j]`. */
  lemma CountLoopStep(answers: Answers, keys: seq<string>, j: nat)
    requires forall k :: k in keys ==> k in answers
    requires keys != [] && j < |Letters|
    ensures CountLoop(answers, keys)[j]
         == CountLoop(answers, keys[..|keys| - 1])[j] + (if answers[keys[|keys| - 1]] == Letters[j] then 1 else 0)
  {
    var answer := answers[keys[|keys| - 1]];
    if IsLetter(answer) && answer != Letters[j] {
      assert LetterIndex(answer) != j;
    }
  }

  /** Visiting one more key that was not visited before adds one voter for
      `letter` exactly when that key's answer is `letter`. */
  lemma VotersStep(answers: Answers, p: seq<string>, x: string, letter: string)
    requires forall k :: k in p + [x] ==> k in answers
    requires x !in p
    ensures |set k | k in p + [x] && answers[k] == letter|
         == |set k | k in p && answers[k] == letter| + (if answers[x] == letter then 1 else 0)
  {
    var before := set k | k in p && answers[k] == letter;
    var after := set k | k in p + [x] && answers[k] == letter;
    if answers[x] == letter {
      assert after == before + {x};
    } else {
      assert after == before;
    }
  }

  /** In whatever order the object lists its keys, the counting loop ends
      with the letter counts, so the scan over what it leaves is
      `PrimaryType`. */
  lemma CountLoopTally(answers: Answers, keys: seq<string>)
    requires ListsKeys(answers, keys)
    ensures CountLoop(answers, keys) == Tally(answers)
    ensures Scan(CountLoop(answers, keys), 0, 0, "") == PrimaryType(answers)
  {
    forall j | 0 <= j < |Letters|
      ensures CountLoop(answers, keys)[j] == Tally(answers)[j]
    {
      CountLoopCounts(answers, keys, j);
      assert (set k | k in keys && answers[k] == Letters[j])
          == (set q | q in answers && answers[q] == Letters[j]);
    }
  }

  /** The `Object.entries(counts).forEach` scan from position `i` on: a
      letter replaces the leader only when its count is strictly greater
      than the running maximum. The result is the leader it started with
      or one of the letters still to be scanned. */
  function Scan(counts: seq<nat>, i: nat, maxCount: int, leader: string): (r: string)
    requires |counts| == |Letters| && i <= |Letters|
    ensures r == leader || r in Letters[i..]
    decreases |Letters| - i
  {
    if i == |Letters| then leader
    else if counts[i] > maxCount then Scan(counts, i + 1, counts[i], Letters[i])
    else Scan(counts, i + 1, maxCount, leader)
  }

  /** `determinePrimaryType(answers)`: starts from `maxCount = 0` and
      `primaryType = ""`, so it is `""` when no answer is a letter. */
  function PrimaryType(answers: Answers): (r: string)
    ensures r == "" || IsLetter(r)
  {
    Scan(Tally(answers), 0, 0, "")
  }

  /** The winner of six letter counts, stated without the scan: `""` when
      every count is zero, otherwise the letter at index `w` whose count is
      at least every other count and strictly above the count of every
      earlier letter (ties go to the earlier letter). */
  ghost predicate IsFirstMax(counts: seq<nat>, r: string)
    requires |counts| == |Letters|
  {
    if forall j :: 0 <= j < |Letters| ==> counts[j] == 0 then r == ""
    else exists w :: 0 <= w < |Letters| && r == Letters[w] && WinsAt(counts, w)
  }

  ghost predicate WinsAt(counts: seq<nat>, w: nat)
    requires |counts| == |Letters| && w < |Letters|
  {
    && counts[w] > 0
    && (forall j :: 0 <= j < |Letters| ==> counts[j] <= counts[w])
    && (forall j :: 0 <= j < w ==> counts[j] < counts[w])
  }

  /** The plurality winner of the answers. */
  ghost predicate IsPluralityWinner(answers: Answers, r: string) {
    IsFirstMax(Tally(answers), r)
  }

  /** What the scan knows after the first `i` letters: with `w == -1`
      nothing has been counted yet; otherwise `leader` is the letter at
      index `w`, the earliest one holding the maximum among the first `i`. */
  ghost predicate ScanState(counts: seq<nat>, i: nat, maxCount: int, leader: string, w: int)
    requires |counts| == |Letters| && i <= |Letters|
  {
    if w < 0 then
      && maxCount == 0 && leader == ""
      && (forall j :: 0 <= j < i ==> counts[j] == 0)
    else
      && w < i && leader == Letters[w] && maxCount == counts[w] && maxCount > 0
      && (forall j :: 0 <= j < i ==> counts[j] <= maxCount)
      && (forall j :: 0 <= j < w ==> counts[j] < maxCount)
  }

  lemma {:induction false} ScanFindsWinner(counts: seq<nat>, i: nat, maxCount: int, leader: string, w: int)
    requires |counts| == |Letters| && i <= |Letters|
    requires ScanState(counts, i, maxCount, leader, w)
    ensures IsFirstMax(counts, Scan(counts, i, maxCount, leader))
    decreases |Letters| - i
  {
    if i == |Letters| {
      if w >= 0 {
        assert WinsAt(counts, w);
      }
    } else if counts[i] > maxCount {
      ScanFindsWinner(counts, i + 1, counts[i], Letters[i], i);
    } else {
      ScanFindsWinner(counts, i + 1, maxCount, leader, w);
    }
  }

  /** `determinePrimaryType` returns the plurality winner with ties broken
      toward the earlier letter, and `""` when no answer is a letter. */
  lemma PrimaryTypeIsPluralityWinner(answers: Answers)
    ensures IsPluralityWinner(answers, PrimaryType(answers))
  {
    ScanFindsWinner(Tally(answers), 0, 0, "", -1);
  }

  /** The plurality winner is unique, so the property above determines
      `determinePrimaryType` completely. */
  lemma PluralityWinnerUnique(answers: Answers, r1: string, r2: string)
    requires IsPluralityWinner(answers, r1) && IsPluralityWinner(answers, r2)
    ensures r1 == r2
  {
    var counts := Tally(answers);
    if !forall j :: 0 <= j < |Letters| ==> counts[j] == 0 {
      var w1 :| 0 <= w1 < |Letters| && r1 == Letters[w1] && WinsAt(counts, w1);
      var w2 :| 0 <= w2 < |Letters| && r2 == Letters[w2] && WinsAt(counts, w2);
    }
  }

  /** A letter whose count is strictly above every other letter's count
      is the primary type. */
  lemma StrictWinnerWins(answers: Answers, w: nat)
    requires w < |Letters|
    requires forall j :: 0 <= j < |Letters| && j != w ==> Count(answers, Letters[j]) < Count(answers, Letters[w])
    ensures PrimaryType(answers) == Letters[w]
  {
    var counts := Tally(answers);
    assert counts[(w + 1) % |Letters|] < counts[w];
    assert WinsAt(counts, w);
    PrimaryTypeIsPluralityWinner(answers);
    PluralityWinnerUnique(answers, PrimaryType(answers), Letters[w]);
  }

  /** When all six letters were chosen equally often, and at least once,
      the first letter wins. */
  lemma FullTieGivesFirstLetter(answers: Answers)
    requires Count(answers, Letters[0]) > 0
    requires forall j :: 0 <= j < |Letters| ==> Count(answers, Letters[j]) == Count(answers, Letters[0])
    ensures PrimaryType(answers) == "A"
  {
    assert WinsAt(Tally(answers), 0);
    PrimaryTypeIsPluralityWinner(answers);
    PluralityWinnerUnique(answers, PrimaryType(answers), Letters[0]);
  }

  /** The result is a letter exactly when some question was answered with
      a letter, and `""` otherwise (an empty answer map included). */
  lemma PrimaryTypeIsLetterIff(answers: Answers)
    ensures IsLetter(PrimaryType(answers)) <==> exists q :: q in answers && IsLetter(answers[q])
    ensures !IsLetter(PrimaryType(answers)) ==> PrimaryType(answers) == ""
  {
    PrimaryTypeIsPluralityWinner(answers);
    var counts := Tally(answers);
    if exists q :: q in answers && IsLetter(answers[q]) {
      var q :| q in answers && IsLetter(answers[q]);
      var j :| 0 <= j < |Letters| && Letters[j] == answers[q];
      var voters := set p | p in answers && answers[p] == Letters[j];
      assert q in voters;
      assert counts[j] == |voters| > 0;
    } else {
      forall j | 0 <= j < |Letters|
        ensures counts[j] == 0
      {
        assert (set p | p in answers && answers[p] == Letters[j]) == {};
      }
    }
  }

  /** Writing a non-letter under a key that did not hold a letter leaves
      every letter's count as it was. */
  lemma CountIgnoresNonLetter(answers: Answers, k: string, v: string, letter: string)
    requires IsLetter(letter) && !IsLetter(v)
    requires k in answers ==> !IsLetter(answers[k])
    ensures Count(answers[k := v], letter) == Count(answers, letter)
  {
    var updated := answers[k := v];
    assert (set q | q in updated && updated[q] == letter)
        == (set q | q in answers && answers[q] == letter);
  }

  /** An answer whose value is not one of A to F (a plant id stored under a
      secondary question id, say) does not change the primary type. */
  lemma NonLetterAnswerIgnored(answers: Answers, k: string, v: string)
    requires !IsLetter(v)
    requires k in answers ==> !IsLetter(answers[k])
    ensures PrimaryType(answers[k := v]) == PrimaryType(answers)
  {
    forall j | 0 <= j < |Letters|
      ensures Count(answers[k := v], Letters[j]) == Count(answers, Letters[j])
    {
      CountIgnoresNonLetter(answers, k, v, Letters[j]);
    }
    assert Tally(answers[k := v]) == Tally(answers);
  }
}
