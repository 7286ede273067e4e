/**
 * Language mix of a parent status (POST_IN_HEBREW, POST_IN_ENGLISH, POST_IN_ARABIC,
 * POST_IN_OTHER).  The status text is split into paragraphs, stop phrases are
 * stripped, every paragraph longer than the threshold is handed to an external
 * language detector, and the codes found are deduplicated.
 */
module Languages {
  import opened Wrappers
  import opened Strings

  /** Paragraphs of this length or shorter are ignored. */
  const ParagraphLenThreshold: int := 0

  /** The configured stop phrases: none. */
  const StopPhrases: seq<string> := []

  /** The codes that have a column of their own; any other code counts as "other". */
  const KnownLanguages: seq<string> := ["he", "en", "ar"]

  /** An external detector: the code it finds, or None when it raises. */
  type Detector = string -> Option<string>

  /** The detector's code, with a detection failure caught and reported as the empty code. */
  function DetectLanguage(text: string, detect: Detector): (code: string)
    ensures detect(text).None? ==> code == ""
    ensures detect(text).Some? ==> code == detect(text).value
  {
    match detect(text)
    case Some(c) => c
    case None => ""
  }

  /** The paragraph splitter: the whole text is one paragraph. */
  function SplitTextToParagraphs(text: string): (paragraphs: seq<string>)
    ensures |paragraphs| == 1
    ensures forall p :: p in paragraphs <==> p == text
  {
    [text]
  }

  /** Each phrase of `phrases`, in order, deleted from the text. */
  function RemovePhrases(text: string, phrases: seq<string>): (r: string)
    ensures |r| <= |text|
    decreases phrases
  {
    if phrases == [] then text else RemovePhrases(DeleteOccurrences(text, phrases[0]), phrases[1..])
  }

  /** Stop-phrase removal: with no stop phrases configured it changes nothing. */
  function RemoveStopPhrases(text: string): (r: string)
    ensures r == text
  {
    RemovePhrases(text, StopPhrases)
  }

  /** The distinct elements of a sequence, each once (Python's `list(set(...))`, in some order). */
  function Dedup(s: seq<string>): (r: seq<string>)
    ensures NoDuplicates(r)
    ensures forall x :: x in r <==> x in s
  {
    if s == [] then []
    else if s[0] in s[1..] then Dedup(s[1..])
    else [s[0]] + Dedup(s[1..])
  }

  /** The code detected for each paragraph longer than the threshold, in paragraph order. */
  function DetectAll(paragraphs: seq<string>, detect: Detector): (codes: seq<string>)
    ensures forall x :: x in codes <==>
      exists i :: 0 <= i < |paragraphs| && |paragraphs[i]| > ParagraphLenThreshold && DetectLanguage(paragraphs[i], detect) == x
  {
    if paragraphs == [] then []
    else
      var p := paragraphs[0];
      var _ := RemoveStopPhrases(p);   // computed and discarded, as in the command
      var rest := DetectAll(paragraphs[1..], detect);
      assert forall i :: 1 <= i < |paragraphs| ==> paragraphs[i] == paragraphs[1..][i - 1];
      if |p| > ParagraphLenThreshold then [DetectLanguage(p, detect)] + rest else rest
  }

  /**
   * The distinct languages of a status text: a duplicate-free list holding exactly the
   * codes detected for its long-enough paragraphs.
   */
  function DetectLanguages(content: string, detect: Detector): (langs: seq<string>)
    ensures NoDuplicates(langs)
    ensures forall x :: x in langs <==>
      exists p :: p in SplitTextToParagraphs(content) && |p| > ParagraphLenThreshold && DetectLanguage(p, detect) == x
  {
    var paragraphs := SplitTextToParagraphs(content);
    var codes := DetectAll(paragraphs, detect);
    Dedup(codes)
  }

  /** Since the text is one paragraph and the threshold is zero: no code for empty text, one otherwise. */
  lemma DetectLanguagesOfContent(content: string, detect: Detector)
    ensures content == "" ==> DetectLanguages(content, detect) == []
    ensures content != "" ==> DetectLanguages(content, detect) == [DetectLanguage(content, detect)]
  {
    var code := DetectLanguage(content, detect);
    assert [content][1..] == [];
    if content == "" {
      assert DetectAll([content], detect) == [];
    } else {
      assert DetectAll([content], detect) == [code];
      assert [code][1..] == [];
      assert Dedup([code]) == [code] + Dedup([]);
    }
  }

  datatype LanguageFlags = LanguageFlags(hebrew: bool, english: bool, arabic: bool, other: bool)
  {
    /** How many of the four flags are set. */
    function Count(): nat
    {
      (if hebrew then 1 else 0) + (if english then 1 else 0) + (if arabic then 1 else 0) + (if other then 1 else 0)
    }
  }

  /**
   * The four POST_IN_* columns of a list of detected codes: HEBREW, ENGLISH and
   * ARABIC for the codes "he", "en" and "ar", OTHER for any code besides these.
   */
  function GetLanguageFlags(langs: seq<string>): (f: LanguageFlags)
    ensures f.hebrew <==> "he" in langs
    ensures f.english <==> "en" in langs
    ensures f.arabic <==> "ar" in langs
    ensures f.hebrew || f.english || f.arabic || f.other <==> langs != []
    ensures f.other <==> exists x :: x in langs && x !in KnownLanguages
  {
    assert langs != [] ==> langs[0] in langs && (langs[0] in KnownLanguages || langs[0] !in KnownLanguages);
    LanguageFlags("he" in langs, "en" in langs, "ar" in langs, exists x :: x in langs && x !in KnownLanguages)
  }

  /**
   * The language columns of a status: all clear for empty text; otherwise exactly
   * one is set, the one named by the detected code: HEBREW, ENGLISH or ARABIC for
   * he, en or ar, and OTHER for any other code, which includes a failed detection
   * (the empty code).
   */
  lemma PostLanguageFlags(content: string, detect: Detector)
    ensures content == "" ==> GetLanguageFlags(DetectLanguages(content, detect)).Count() == 0
    ensures content != "" ==> GetLanguageFlags(DetectLanguages(content, detect)).Count() == 1
    ensures content != "" ==> (GetLanguageFlags(DetectLanguages(content, detect)).hebrew
                               <==> DetectLanguage(content, detect) == "he")
    ensures content != "" ==> (GetLanguageFlags(DetectLanguages(content, detect)).english
                               <==> DetectLanguage(content, detect) == "en")
    ensures content != "" ==> (GetLanguageFlags(DetectLanguages(content, detect)).arabic
                               <==> DetectLanguage(content, detect) == "ar")
    ensures content != "" ==> (GetLanguageFlags(DetectLanguages(content, detect)).other
                               <==> DetectLanguage(content, detect) !in KnownLanguages)
    ensures content != "" && detect(content).None? ==> GetLanguageFlags(DetectLanguages(content, detect)).other
  {
    DetectLanguagesOfContent(content, detect);
    if content != "" {
      var code := DetectLanguage(content, detect);
      var f := GetLanguageFlags([code]);
      assert f.other <==> code !in KnownLanguages by {
        if code !in KnownLanguages {
          assert code in [code];
        }
      }
    }
  }
}
