/**
 * The level detector: one model call over the quiz answers, whose reply,
 * stripped of surrounding whitespace, must be exactly one of three level
 * names; anything else, and any exception, means "Beginner".
 */
module LevelDetector {
  import opened Wrappers
  import opened Text

  /** One answered quiz question. */
  datatype QAPair = QAPair(question: string, answer: string)

  const Levels: seq<string> := ["Beginner", "Intermediate", "Advanced"]
  const DefaultLevel: string := "Beginner"

  /** The prompt block for one answered question. */
  function Block(p: QAPair): string {
    "Q: " + p.question + "\nA: " + p.answer
  }

  function Blocks(pairs: seq<QAPair>): (bs: seq<string>)
    ensures |bs| == |pairs| && forall i :: 0 <= i < |pairs| ==> bs[i] == Block(pairs[i])
  {
    seq(|pairs|, i requires 0 <= i < |pairs| => Block(pairs[i]))
  }

  /** The QA text handed to the model: the pairs' blocks in order, one line break between neighbours. */
  function QaText(pairs: seq<QAPair>): string {
    Join("\n", Blocks(pairs))
  }

  /** No pairs give an empty text, one pair its block, and each further pair adds a line break and its block. */
  lemma QaTextAppend(pairs: seq<QAPair>, p: QAPair)
    ensures QaText([]) == ""
    ensures QaText([p]) == Block(p)
    ensures pairs != [] ==> QaText(pairs + [p]) == QaText(pairs) + "\n" + Block(p)
  {
    assert Blocks([p]) == [Block(p)];
    if pairs != [] {
      assert Blocks(pairs + [p]) == Blocks(pairs) + Blocks([p]);
      JoinAppend("\n", Blocks(pairs), Blocks([p]));
    }
  }

  /** The level a model reply stands for; None is a raised exception. */
  function Classify(reply: Option<string>): (level: string)
    ensures level in Levels
    ensures reply.Some? && Trim(reply.value, IsSpace) in Levels ==> level == Trim(reply.value, IsSpace)
    ensures reply.None? || Trim(reply.value, IsSpace) !in Levels ==> level == DefaultLevel
  {
    match reply
    case None => DefaultLevel
    case Some(s) => if Trim(s, IsSpace) in Levels then Trim(s, IsSpace) else DefaultLevel
  }

  /** `detect_level`: the classification of the single reply to the QA text of the pairs. */
  function DetectLevel(pairs: seq<QAPair>, invoke: string -> Option<string>): (level: string)
    ensures level in Levels
    ensures level == Classify(invoke(QaText(pairs)))
  {
    Classify(invoke(QaText(pairs)))
  }

  /** Only one call is made, with the QA text as its input: models that agree on that reply agree on the level. */
  lemma SingleCall(pairs: seq<QAPair>, invoke: string -> Option<string>, other: string -> Option<string>)
    requires invoke(QaText(pairs)) == other(QaText(pairs))
    ensures DetectLevel(pairs, invoke) == DetectLevel(pairs, other)
  {
  }

  /** A level name padded with whitespace on either side is recognised. */
  lemma PaddedLevelRecognised(left: string, i: nat, right: string)
    requires i < |Levels| && AllBy(left, IsSpace) && AllBy(right, IsSpace)
    ensures Classify(Some(left + Levels[i] + right)) == Levels[i]
  {
    TrimPadded(left, Levels[i], right, IsSpace);
  }

  /** A reply without surrounding whitespace that is not literally a level name means "Beginner". */
  lemma UnlistedDefaults(s: string)
    requires s != [] && !IsSpace(s[0]) && !IsSpace(s[|s| - 1])
    requires s !in Levels
    ensures Classify(Some(s)) == DefaultLevel
  {
    assert [] + s + [] == s;
    TrimPadded([], s, [], IsSpace);
    assert Trim(s, IsSpace) == s;
  }

  /** The check is case-sensitive: "advanced" means "Beginner". */
  lemma LowercaseDefaults()
    ensures Classify(Some("advanced")) == DefaultLevel
  {
    UnlistedDefaults("advanced");
  }

  /** The check is exact: "Advanced." means "Beginner". */
  lemma PunctuatedDefaults()
    ensures Classify(Some("Advanced.")) == DefaultLevel
  {
    UnlistedDefaults("Advanced.");
  }
}
