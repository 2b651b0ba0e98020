/**
 * The style catalog `JOKE_STYLES`: eight style keys, in a fixed order, each with a
 * prompt template holding one `{topic}` field. A template is kept as the text
 * before the field (`Prefix`) and the text after it (`Suffix`); each of the two
 * is written as a list of short pieces that `Text.Concat` joins.
 */
module JokeStyles {
  import opened Wrappers
  import opened Ascii
  import Text

  datatype Style = Pun | Wordplay | Observational | AntiHumor | QuestionAnswer | OneLiner | KnockKnock | Classic

  /** The catalog's styles in the order the catalog lists them. */
  const AllStyles: seq<Style> := [Pun, Wordplay, Observational, AntiHumor, QuestionAnswer, OneLiner, KnockKnock, Classic]

  /** `JOKE_STYLES.keys()`, in catalog order. */
  const Keys: seq<string> := ["pun", "wordplay", "observational", "anti-humor",
                              "question-answer", "one-liner", "knock-knock", "classic"]

  /** The style used when none is requested or the requested one is unknown. */
  const DefaultStyle: Style := Classic

  /** The style's key in the catalog. */
  function Key(s: Style): string {
    match s
    case Pun => "pun"
    case Wordplay => "wordplay"
    case Observational => "observational"
    case AntiHumor => "anti-humor"
    case QuestionAnswer => "question-answer"
    case OneLiner => "one-liner"
    case KnockKnock => "knock-knock"
    case Classic => "classic"
  }

  /**
   * The template text before `{topic}`, piece by piece. Each template in the
   * source is one single-line string literal: `Text.Concat` joins the pieces
   * with nothing between them, so no line breaks or spaces are added; every
   * space of the template is written inside a piece.
   */
  function PrefixPieces(s: Style): seq<string> {
    match s
    case Pun =>
      ["You are an ",
       "expert comedian ",
       "specializing in ",
       "puns and ",
       "wordplay. ",
       "Create a clever ",
       "pun-based dad ",
       "joke about "]
    case Wordplay =>
      ["You are a ",
       "master of ",
       "linguistic ",
       "humor and ",
       "wordplay. ",
       "Create a dad ",
       "joke about "]
    case Observational =>
      ["You are a ",
       "comedian ",
       "skilled in ",
       "observational ",
       "humor. Create a ",
       "dad joke about "]
    case AntiHumor =>
      ["You are a ",
       "comedian who ",
       "specializes in ",
       "anti-humor and ",
       "anti-jokes. ",
       "Create a dad ",
       "joke about "]
    case QuestionAnswer =>
      ["You are an ",
       "expert at ",
       "question-and-answer ",
       "style dad ",
       "jokes. Create a ",
       "dad joke about "]
    case OneLiner =>
      ["You are a ",
       "master of ",
       "concise ",
       "one-liner ",
       "jokes. Create a ",
       "short, punchy ",
       "dad joke about "]
    case KnockKnock =>
      ["You are skilled ",
       "at creating ",
       "knock-knock ",
       "jokes. Create a ",
       "knock-knock ",
       "joke about "]
    case Classic =>
      ["You are an ",
       "expert comedian ",
       "skilled with ",
       "puns and dad ",
       "jokes. Create a ",
       "joke about "]
  }

  /** The template text after `{topic}`, piece by piece. */
  function SuffixPieces(s: Style): seq<string> {
    match s
    case Pun =>
      [" that plays on ",
       "multiple ",
       "meanings of ",
       "words. The joke ",
       "should be ",
       "groan-worthy ",
       "but clever, ",
       "appropriate for ",
       "all ages."]
    case Wordplay =>
      [" that uses ",
       "creative word ",
       "combinations, ",
       "homophones, or ",
       "unexpected word ",
       "associations. ",
       "Keep it ",
       "family-friendly ",
       "and punny."]
    case Observational =>
      [" that points ",
       "out something ",
       "funny or absurd ",
       "about everyday ",
       "situations. ",
       "Make it ",
       "relatable and ",
       "wholesome."]
    case AntiHumor =>
      [" that subverts ",
       "expectations ",
       "with an ",
       "unexpectedly ",
       "literal or ",
       "mundane ",
       "punchline. The ",
       "humor comes ",
       "from the lack ",
       "of a ",
       "traditional ",
       "punchline."]
    case QuestionAnswer =>
      [" in the classic ",
       "'Why did the ",
       "X...? ",
       "Because...' or ",
       "'What do you ",
       "call...?' ",
       "format. Make it ",
       "punny and ",
       "groan-inducing."]
    case OneLiner =>
      [" that delivers ",
       "the humor in a ",
       "single ",
       "sentence. Focus ",
       "on wordplay or ",
       "unexpected ",
       "twists."]
    case KnockKnock =>
      [" that uses ",
       "clever ",
       "wordplay. ",
       "Follow the ",
       "classic format: ",
       "'Knock knock. ",
       "Who's there? ",
       "[X]. [X] who? ",
       "[Punchline].'"]
    case Classic =>
      [" that is ",
       "appropriate for ",
       "a workplace. ",
       "Use classic dad ",
       "joke style with ",
       "groan-worthy ",
       "puns and ",
       "wholesome humor."]
  }

  function Prefix(s: Style): string {
    Text.Concat(PrefixPieces(s))
  }

  function Suffix(s: Style): string {
    Text.Concat(SuffixPieces(s))
  }

  /** The template as the catalog stores it. */
  function Template(s: Style): string {
    Prefix(s) + Text.Placeholder + Suffix(s)
  }

  /** `Template(s).format(topic=topic)` is the template with the topic in place of its field. */
  lemma FormatTemplate(s: Style, topic: string)
    ensures Text.Format(Template(s), topic) == Prefix(s) + topic + Suffix(s)
  {
    TemplateHasOneField(s);
    Text.FormatSingleField(Prefix(s), Suffix(s), topic);
  }

  /** `JOKE_STYLES` as a dictionary from key to style. */
  const Catalog: map<string, Style> :=
    map["pun" := Pun, "wordplay" := Wordplay, "observational" := Observational,
        "anti-humor" := AntiHumor, "question-answer" := QuestionAnswer,
        "one-liner" := OneLiner, "knock-knock" := KnockKnock, "classic" := Classic]

  /** Dictionary lookup `JOKE_STYLES[key]`, with `None` for a missing key. */
  function Lookup(key: string): Option<Style> {
    if key in Catalog then Some(Catalog[key]) else None
  }

  /**
   * The catalog lists every style exactly once, in the fixed order, each
   * with its own key, and the eight keys are distinct.
   */
  lemma CatalogKeys()
    ensures |AllStyles| == |Keys| == 8
    ensures forall k :: k in Catalog <==> k in Keys
    ensures forall s: Style :: s in AllStyles
    ensures forall i :: 0 <= i < |Keys| ==> Keys[i] == Key(AllStyles[i])
    ensures forall i, j :: 0 <= i < j < |Keys| ==> Keys[i] != Keys[j]
  {
    forall s: Style ensures s in AllStyles {
      match s
      case Pun => assert AllStyles[0] == s;
      case Wordplay => assert AllStyles[1] == s;
      case Observational => assert AllStyles[2] == s;
      case AntiHumor => assert AllStyles[3] == s;
      case QuestionAnswer => assert AllStyles[4] == s;
      case OneLiner => assert AllStyles[5] == s;
      case KnockKnock => assert AllStyles[6] == s;
      case Classic => assert AllStyles[7] == s;
    }
  }

  /** A string finds a style exactly when it is a key, and then it finds the style with that key. */
  lemma LookupCatalog(key: string)
    ensures Lookup(key).Some? <==> key in Keys
    ensures Lookup(key).Some? ==> Key(Lookup(key).value) == key
  {
  }

  /** The default key `classic` is lower-case and in the catalog. */
  lemma LookupDefault()
    ensures Lower("classic") == "classic" == Key(DefaultStyle)
    ensures Lookup("classic") == Some(DefaultStyle)
  {
    KeysAreLowerCase(DefaultStyle);
    LowerFixesLowerCase(Key(DefaultStyle));
  }

  /** Each style's key finds that style. */
  lemma LookupKey(s: Style)
    ensures Lookup(Key(s)) == Some(s)
  {
  }

  /** A character that may appear in a key: a lower-case ASCII letter or `-`. */
  predicate IsKeyChar(c: char) {
    'a' <= c <= 'z' || c == '-'
  }

  /** Every key is made of key characters only. */
  lemma KeysAreWellFormed(s: Style)
    ensures forall i :: 0 <= i < |Key(s)| ==> IsKeyChar(Key(s)[i])
  {
    match s
    case Pun =>
    case Wordplay =>
    case Observational =>
    case AntiHumor =>
    case QuestionAnswer =>
    case OneLiner =>
    case KnockKnock =>
    case Classic =>
  }

  /** Keys are lower-case and hold no comma. */
  lemma KeysAreLowerCase(s: Style)
    ensures IsLowerCase(Key(s))
    ensures ',' !in Key(s)
  {
    KeysAreWellFormed(s);
  }

  /** No key holds a comma. */
  lemma KeysHaveNoComma()
    ensures forall i :: 0 <= i < |Keys| ==> ',' !in Keys[i]
  {
    CatalogKeys();
    forall i | 0 <= i < |Keys| ensures ',' !in Keys[i] {
      KeysAreLowerCase(AllStyles[i]);
    }
  }

  /** No piece of any template holds a brace. */
  lemma PiecesBraceFree(s: Style)
    ensures forall i :: 0 <= i < |PrefixPieces(s)| ==> Text.BraceFree(PrefixPieces(s)[i])
    ensures forall i :: 0 <= i < |SuffixPieces(s)| ==> Text.BraceFree(SuffixPieces(s)[i])
  {
    match s
    case Pun => PunPrefixBraceFree(); PunSuffixBraceFree();
    case Wordplay => WordplayPrefixBraceFree(); WordplaySuffixBraceFree();
    case Observational => ObservationalPrefixBraceFree(); ObservationalSuffixBraceFree();
    case AntiHumor => AntiHumorPrefixBraceFree(); AntiHumorSuffixBraceFree();
    case QuestionAnswer => QuestionAnswerPrefixBraceFree(); QuestionAnswerSuffixBraceFree();
    case OneLiner => OneLinerPrefixBraceFree(); OneLinerSuffixBraceFree();
    case KnockKnock => KnockKnockPrefixBraceFree(); KnockKnockSuffixBraceFree();
    case Classic => ClassicPrefixBraceFree(); ClassicSuffixBraceFree();
  }

  // One lemma per template half: each keeps the solver's work on string
  // literals small, where a single proof over all sixteen halves would not.
  lemma PunPrefixBraceFree()
    ensures forall i :: 0 <= i < |PrefixPieces(Pun)| ==> Text.BraceFree(PrefixPieces(Pun)[i])
  {
  }

  lemma PunSuffixBraceFree()
    ensures forall i :: 0 <= i < |SuffixPieces(Pun)| ==> Text.BraceFree(SuffixPieces(Pun)[i])
  {
  }

  lemma WordplayPrefixBraceFree()
    ensures forall i :: 0 <= i < |PrefixPieces(Wordplay)| ==> Text.BraceFree(PrefixPieces(Wordplay)[i])
  {
  }

  lemma WordplaySuffixBraceFree()
    ensures forall i :: 0 <= i < |SuffixPieces(Wordplay)| ==> Text.BraceFree(SuffixPieces(Wordplay)[i])
  {
  }

  lemma ObservationalPrefixBraceFree()
    ensures forall i :: 0 <= i < |PrefixPieces(Observational)| ==> Text.BraceFree(PrefixPieces(Observational)[i])
  {
  }

  lemma ObservationalSuffixBraceFree()
    ensures forall i :: 0 <= i < |SuffixPieces(Observational)| ==> Text.BraceFree(SuffixPieces(Observational)[i])
  {
  }

  lemma AntiHumorPrefixBraceFree()
    ensures forall i :: 0 <= i < |PrefixPieces(AntiHumor)| ==> Text.BraceFree(PrefixPieces(AntiHumor)[i])
  {
  }

  lemma AntiHumorSuffixBraceFree()
    ensures forall i :: 0 <= i < |SuffixPieces(AntiHumor)| ==> Text.BraceFree(SuffixPieces(AntiHumor)[i])
  {
  }

  lemma QuestionAnswerPrefixBraceFree()
    ensures forall i :: 0 <= i < |PrefixPieces(QuestionAnswer)| ==> Text.BraceFree(PrefixPieces(QuestionAnswer)[i])
  {
  }

  lemma QuestionAnswerSuffixBraceFree()
    ensures forall i :: 0 <= i < |SuffixPieces(QuestionAnswer)| ==> Text.BraceFree(SuffixPieces(QuestionAnswer)[i])
  {
  }

  lemma OneLinerPrefixBraceFree()
    ensures forall i :: 0 <= i < |PrefixPieces(OneLiner)| ==> Text.BraceFree(PrefixPieces(OneLiner)[i])
  {
  }

  lemma OneLinerSuffixBraceFree()
    ensures forall i :: 0 <= i < |SuffixPieces(OneLiner)| ==> Text.BraceFree(SuffixPieces(OneLiner)[i])
  {
  }

  lemma KnockKnockPrefixBraceFree()
    ensures forall i :: 0 <= i < |PrefixPieces(KnockKnock)| ==> Text.BraceFree(PrefixPieces(KnockKnock)[i])
  {
  }

  lemma KnockKnockSuffixBraceFree()
    ensures forall i :: 0 <= i < |SuffixPieces(KnockKnock)| ==> Text.BraceFree(SuffixPieces(KnockKnock)[i])
  {
  }

  lemma ClassicPrefixBraceFree()
    ensures forall i :: 0 <= i < |PrefixPieces(Classic)| ==> Text.BraceFree(PrefixPieces(Classic)[i])
  {
  }

  lemma ClassicSuffixBraceFree()
    ensures forall i :: 0 <= i < |SuffixPieces(Classic)| ==> Text.BraceFree(SuffixPieces(Classic)[i])
  {
  }

  /**
   * The text around the field is brace-free, so the template holds exactly
   * one `{` and one `}`: those of its single `{topic}` field.
   */
  lemma TemplateHasOneField(s: Style)
    ensures Text.BraceFree(Prefix(s)) && Text.BraceFree(Suffix(s))
    ensures Text.Count(Template(s), '{') == 1 && Text.Count(Template(s), '}') == 1
    ensures Template(s)[|Prefix(s)|..|Prefix(s)| + |Text.Placeholder|] == Text.Placeholder
  {
    PiecesBraceFree(s);
    Text.ConcatBraceFree(PrefixPieces(s));
    Text.ConcatBraceFree(SuffixPieces(s));
    Text.SingleFieldBraces(Prefix(s), Suffix(s));
  }
}
