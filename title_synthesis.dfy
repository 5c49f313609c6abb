/**
 * Retitling the session thread from the conversation: the keyword and
 * question fallback (`_fallback_title_generation`), the handling of the
 * remote generator's answer, the rolling window of six messages
 * (`analyze_conversation_for_title`) and the counts at which a retitle is
 * attempted.
 */
module TitleSynthesis {

  import opened Wrappers
  import opened Text
  import opened ThreadNaming

  const TechKeywords: seq<string> :=
    ["python", "discord", "error", "bug", "api", "code", "function", "問題", "エラー"]

  const ActionKeywords: seq<string> :=
    ["作成", "create", "修正", "fix", "実装", "implement", "解決", "solve"]

  /** Appended to a technical keyword when no action keyword is present ("about ..."). */
  const TopicSuffix: string := "について"

  /** The ASCII and the full-width question mark. */
  const QuestionMarks: set<char> := {'?', '？'}

  /** The ideographic full stop that separates sentences in the question search. */
  const SentenceEnd: char := '。'

  /** Only the first three messages of the window are searched for a question. */
  const QuestionScan: nat := 3

  /** The number of most recent messages a title is made from. */
  const TitleWindow: nat := 6

  lemma KeywordLengths()
    ensures forall i | 0 <= i < |TechKeywords| :: 1 <= |TechKeywords[i]| <= 8
    ensures forall i | 0 <= i < |ActionKeywords| :: 1 <= |ActionKeywords[i]| <= 9
  {
  }

  /** Every keyword is already in lower case, so `kw.lower()` is `kw`. */
  lemma KeywordsLowercase()
    ensures forall i | 0 <= i < |TechKeywords| :: Lower(TechKeywords[i]) == TechKeywords[i]
    ensures forall i | 0 <= i < |ActionKeywords| :: Lower(ActionKeywords[i]) == ActionKeywords[i]
  {
    forall i | 0 <= i < |TechKeywords| ensures Lower(TechKeywords[i]) == TechKeywords[i] {
      LowerOfLowercase(TechKeywords[i]);
    }
    forall i | 0 <= i < |ActionKeywords| ensures Lower(ActionKeywords[i]) == ActionKeywords[i] {
      LowerOfLowercase(ActionKeywords[i]);
    }
  }

  lemma LowerOfLowercase(s: string)
    requires forall k | 0 <= k < |s| :: !('A' <= s[k] <= 'Z')
    ensures Lower(s) == s
  {
  }

  /** `[kw for kw in keywords if kw.lower() in text.lower()]`, in list order. */
  function Found(keywords: seq<string>, text: string): (found: seq<string>)
    ensures |found| <= |keywords|
    ensures forall kw :: kw in found <==> kw in keywords && Occurs(Lower(kw), Lower(text))
  {
    if keywords == [] then []
    else
      (if Occurs(Lower(keywords[0]), Lower(text)) then [keywords[0]] else [])
      + Found(keywords[1..], text)
  }

  /** The head of `Found` is the first keyword IN LIST ORDER that occurs, wherever it sits in the text. */
  lemma {:induction false} FoundFirst(keywords: seq<string>, text: string) returns (i: nat)
    requires Found(keywords, text) != []
    ensures i < |keywords| && Found(keywords, text)[0] == keywords[i]
    ensures Occurs(Lower(keywords[i]), Lower(text))
    ensures forall j | 0 <= j < i :: !Occurs(Lower(keywords[j]), Lower(text))
  {
    if Occurs(Lower(keywords[0]), Lower(text)) {
      i := 0;
    } else {
      var k := FoundFirst(keywords[1..], text);
      i := k + 1;
    }
  }

  /**
   * The question search exactly as the source's nested loops run it: the
   * first of `messages` holding a question mark is split on '。' and its
   * first sentence holding a question mark is the answer; a message whose
   * sentences hold none would let the search go on to the next message.
   */
  function ScanQuestions(messages: seq<string>): (sentence: Option<string>)
    ensures sentence.Some? ==> HasAny(sentence.value, QuestionMarks)
  {
    if messages == [] then None
    else if HasAny(messages[0], QuestionMarks) && FirstWith(Split(messages[0], SentenceEnd), QuestionMarks).Some?
    then FirstWith(Split(messages[0], SentenceEnd), QuestionMarks)
    else ScanQuestions(messages[1..])
  }

  /**
   * The search never needs to go past the first message holding a question
   * mark: splitting on '。' keeps every question mark in some sentence.
   */
  lemma {:induction false} ScanFindsFirstQuestion(messages: seq<string>)
    ensures ScanQuestions(messages) ==
      match FirstWith(messages, QuestionMarks)
      case None => None
      case Some(m) => FirstWith(Split(m, SentenceEnd), QuestionMarks)
    ensures FirstWith(messages, QuestionMarks).Some? ==> ScanQuestions(messages).Some?
  {
    if messages != [] {
      ScanFindsFirstQuestion(messages[1..]);
      var m := messages[0];
      if HasAny(m, QuestionMarks) {
        var k :| 0 <= k < |m| && m[k] in QuestionMarks;
        var j := SplitKeeps(m, SentenceEnd, m[k]);
        var sentence := Split(m, SentenceEnd)[j];
        var i :| 0 <= i < |sentence| && sentence[i] == m[k];
        assert HasAny(sentence, QuestionMarks);
      }
    }
  }

  /** A text holding a question mark does not strip to nothing. */
  lemma QuestionSurvivesStrip(s: string)
    requires HasAny(s, QuestionMarks)
    ensures Strip(s) != [] && HasAny(Strip(s), QuestionMarks)
  {
    var k :| 0 <= k < |s| && s[k] in QuestionMarks;
    StripKeeps(s, s[k]);
    var j :| 0 <= j < |Strip(s)| && Strip(s)[j] == s[k];
  }

  /** `sentence.strip().replace('\n', ' ')[:100]`. */
  function CleanSentence(sentence: string): (clean: string)
    ensures |clean| <= MaxNameLength && '\n' !in clean
    ensures clean == [] <==> AllSpace(sentence)
    ensures |clean| == if |Strip(sentence)| <= MaxNameLength then |Strip(sentence)| else MaxNameLength
    ensures forall k | 0 <= k < |clean| :: clean[k] == (if Strip(sentence)[k] == '\n' then ' ' else Strip(sentence)[k])
  {
    Truncate(ReplaceChar(Strip(sentence), '\n', ' '), MaxNameLength)
  }

  /** `_fallback_title_generation`. */
  function FallbackTitle(messages: seq<string>): (title: string)
    ensures 1 <= |title| <= MaxNameLength
  {
    var allText := Join(messages, " ");
    var tech := Found(TechKeywords, allText);
    var action := Found(ActionKeywords, allText);
    KeywordLengths();
    if tech != [] && action != [] then
      Truncate(action[0] + " " + tech[0], MaxNameLength)
    else if tech != [] then
      assert |TopicSuffix| == 4 && tech[0] in TechKeywords;
      tech[0] + TopicSuffix
    else if HasAny(allText, QuestionMarks) then
      match ScanQuestions(FirstMessages(messages))
      case Some(sentence) =>
        QuestionSurvivesStrip(sentence);
        CleanSentence(sentence)
      case None => DefaultTitle
    else
      DefaultTitle
  }

  /**
   * When a technical keyword occurs, the title is made of the first
   * technical keyword in list order, preceded by the first action keyword in
   * list order when one occurs, and followed by "について" when none does.
   */
  lemma KeywordTitle(messages: seq<string>) returns (t: nat, a: Option<nat>)
    requires Found(TechKeywords, Join(messages, " ")) != []
    ensures var text := Lower(Join(messages, " "));
            && t < |TechKeywords| && Occurs(TechKeywords[t], text)
            && (forall j | 0 <= j < t :: !Occurs(TechKeywords[j], text))
            && (a.None? ==> forall j | 0 <= j < |ActionKeywords| :: !Occurs(ActionKeywords[j], text))
            && (a.Some? ==>
                  && a.value < |ActionKeywords| && Occurs(ActionKeywords[a.value], text)
                  && forall j | 0 <= j < a.value :: !Occurs(ActionKeywords[j], text))
    ensures FallbackTitle(messages) ==
            match a
            case Some(i) => ActionKeywords[i] + " " + TechKeywords[t]
            case None => TechKeywords[t] + TopicSuffix
  {
    var allText := Join(messages, " ");
    KeywordsLowercase();
    t := FoundFirst(TechKeywords, allText);
    KeywordLengths();
    if Found(ActionKeywords, allText) != [] {
      var i := FoundFirst(ActionKeywords, allText);
      a := Some(i);
    } else {
      a := None;
      forall j | 0 <= j < |ActionKeywords| ensures !Occurs(ActionKeywords[j], Lower(allText)) {
        assert ActionKeywords[j] in ActionKeywords;
      }
    }
  }

  /**
   * Without any keyword, a question mark in the first three messages yields
   * the first '。'-sentence holding one, cleaned; question marks only in
   * later messages are ignored and the default name comes back.
   */
  lemma QuestionTitle(messages: seq<string>)
    requires Found(TechKeywords, Join(messages, " ")) == []
    ensures var first := FirstMessages(messages);
            FirstWith(first, QuestionMarks).None? ==> FallbackTitle(messages) == DefaultTitle
    ensures var first := FirstMessages(messages);
            FirstWith(first, QuestionMarks).Some? ==>
              var sentence := FirstWith(Split(FirstWith(first, QuestionMarks).value, SentenceEnd), QuestionMarks);
              sentence.Some? && FallbackTitle(messages) == CleanSentence(sentence.value)
  {
    var first := FirstMessages(messages);
    ScanFindsFirstQuestion(first);
    if FirstWith(first, QuestionMarks).Some? {
      QuestionInText(messages);
    }
  }

  /** `messages[:3]`. */
  function FirstMessages(messages: seq<string>): (first: seq<string>)
    ensures |first| <= QuestionScan && |first| <= |messages| && first == messages[..|first|]
    ensures |messages| >= QuestionScan ==> |first| == QuestionScan
  {
    if |messages| < QuestionScan then messages else messages[..QuestionScan]
  }

  /** A question mark in one of the first three messages is a question mark in the joined text. */
  lemma QuestionInText(messages: seq<string>)
    requires FirstWith(FirstMessages(messages), QuestionMarks).Some?
    ensures HasAny(Join(messages, " "), QuestionMarks)
  {
    var m := FirstWith(FirstMessages(messages), QuestionMarks).value;
    var k :| 0 <= k < |m| && m[k] in QuestionMarks;
    JoinKeeps(messages, " ", m, k);
    var allText := Join(messages, " ");
    var i :| 0 <= i < |allText| && allText[i] == m[k];
  }

  /** A character of one of the joined texts is a character of the joined text. */
  lemma {:induction false} JoinKeeps(parts: seq<string>, sep: string, m: string, k: nat)
    requires m in parts && k < |m|
    ensures m[k] in Join(parts, sep)
  {
    if |parts| > 1 {
      if parts[0] == m {
        assert Join(parts, sep)[k] == m[k];
      } else {
        JoinKeeps(parts[1..], sep, m, k);
        var j :| 0 <= j < |Join(parts[1..], sep)| && Join(parts[1..], sep)[j] == m[k];
        assert Join(parts, sep)[|parts[0]| + |sep| + j] == m[k];
      }
    }
  }

  /**
   * `_fallback_title_generation`, step by step: the keyword filters, then the
   * question search of `QuestionLoop`.
   */
  method FallbackTitleGeneration(messages: seq<string>) returns (title: string)
    ensures title == FallbackTitle(messages)
  {
    var allText := Join(messages, " ");
    var foundTech := Found(TechKeywords, allText);
    var foundAction := Found(ActionKeywords, allText);
    if foundTech != [] && foundAction != [] {
      title := foundAction[0] + " " + foundTech[0];
      if |title| > MaxNameLength {
        title := title[..MaxNameLength];
      }
      return;
    } else if foundTech != [] {
      return foundTech[0] + TopicSuffix;
    } else if HasAny(allText, QuestionMarks) {
      var cleaned := QuestionLoop(FirstMessages(messages));
      if cleaned.Some? {
        return cleaned.value;
      }
    }
    return DefaultTitle;
  }

  /**
   * The nested loops over the first messages and their '。'-sentences, which
   * return the first question sentence, cleaned, from inside.
   */
  method QuestionLoop(first: seq<string>) returns (cleaned: Option<string>)
    ensures cleaned == match ScanQuestions(first)
                       case Some(sentence) => Some(CleanSentence(sentence))
                       case None => None
  {
    var m := 0;
    while m < |first|
      invariant 0 <= m <= |first|
      invariant ScanQuestions(first) == ScanQuestions(first[m..])
    {
      var msg := first[m];
      assert first[m..][1..] == first[m + 1..];
      if HasAny(msg, QuestionMarks) {
        var sentences := Split(msg, SentenceEnd);
        var s := 0;
        while s < |sentences|
          invariant 0 <= s <= |sentences|
          invariant forall j | 0 <= j < s :: !HasAny(sentences[j], QuestionMarks)
        {
          var sentence := sentences[s];
          if HasAny(sentence, QuestionMarks) {
            FirstWithAt(sentences, QuestionMarks, s);
            var clean := ReplaceChar(Strip(sentence), '\n', ' ');
            if |clean| > MaxNameLength {
              clean := clean[..MaxNameLength];
            }
            return Some(clean);
          }
          s := s + 1;
        }
      }
      m := m + 1;
    }
    return None;
  }

  /**
   * What `_generate_ai_title` makes of the generator's answer: no answer or
   * an empty one gives nothing; otherwise the answer stripped and cut to 100
   * characters (it may strip to nothing).
   */
  function GeneratedTitle(response: Option<string>): (title: Option<string>)
    ensures title.Some? <==> response.Some? && response.value != []
    ensures title.Some? ==>
              var kept := Strip(response.value);
              && |title.value| == (if |kept| <= MaxNameLength then |kept| else MaxNameLength)
              && title.value == kept[..|title.value|]
    ensures title.Some? ==> IsInfix(title.value, response.value)
    ensures title.Some? ==> (title.value == [] <==> AllSpace(response.value))
  {
    match response
    case None => None
    case Some(text) =>
      if text == [] then None
      else
        var title := Truncate(Strip(text), MaxNameLength);
        InfixOfPrefix(Strip(text), text, |title|);
        Some(title)
  }

  /** An answer that is already a clean, short title is kept as it is. */
  lemma CleanAnswerKept(answer: string)
    requires answer != [] && !IsSpace(answer[0]) && !IsSpace(answer[|answer| - 1])
    requires |answer| <= MaxNameLength
    ensures GeneratedTitle(Some(answer)) == Some(answer)
  {
    StripIdentity(answer);
  }

  /**
   * The title chosen from the six most recent messages: the generated title
   * when it is not empty, else the fallback built from those messages.
   */
  function WindowTitle(recent: seq<string>, response: Option<string>): (title: string)
    ensures 1 <= |title| <= MaxNameLength
    ensures response.Some? && !AllSpace(response.value) ==> Some(title) == GeneratedTitle(response)
    ensures response.None? || AllSpace(response.value) ==> title == FallbackTitle(recent)
  {
    var generated := GeneratedTitle(response);
    if generated.Some? && generated.value != [] then generated.value
    else FallbackTitle(recent)
  }

  /**
   * `analyze_conversation_for_title`: nothing before six messages; otherwise
   * the generated title when it is not empty, else the fallback over the
   * six most recent messages.
   */
  function AnalyzeConversation(history: seq<string>, response: Option<string>): (title: Option<string>)
    ensures |history| < TitleWindow ==> title.None?
    ensures |history| >= TitleWindow ==> title.Some? && 1 <= |title.value| <= MaxNameLength
    ensures |history| >= TitleWindow && response.Some? && !AllSpace(response.value) ==>
              title == GeneratedTitle(response)
    ensures |history| >= TitleWindow && (response.None? || AllSpace(response.value)) ==>
              title == Some(FallbackTitle(history[|history| - TitleWindow..]))
  {
    if |history| < TitleWindow then None
    else Some(WindowTitle(history[|history| - TitleWindow..], response))
  }

  /** Messages older than the six most recent ones never influence the title. */
  lemma OnlyRecentMessagesCount(older: seq<string>, history: seq<string>, response: Option<string>)
    requires |history| >= TitleWindow
    ensures AnalyzeConversation(older + history, response) == AnalyzeConversation(history, response)
  {
    var all := older + history;
    assert all[|all| - TitleWindow..] == history[|history| - TitleWindow..];
  }

  /**
   * The retitle check after each counted message: at six messages, then at
   * every multiple of ten above six (10, 20, 30, ...).
   */
  predicate TitleCheckDue(count: nat): (due: bool)
    ensures count < 6 ==> !due
    ensures count == 6 ==> due
    ensures 6 < count < 10 ==> !due
    ensures count >= 10 ==> (due <==> count % 10 == 0)
  {
    count == 6 || (count > 6 && count % 10 == 0)
  }

  /** The first count at or after `n` where a retitle is attempted. */
  function NextTitleCheck(n: nat): (due: nat)
    ensures n <= due && TitleCheckDue(due)
    ensures forall c | n <= c < due :: !TitleCheckDue(c)
    ensures n >= 1 ==> due <= n + 9
  {
    if n <= 6 then 6
    else if n <= 10 then 10
    else if n % 10 == 0 then n
    else n + (10 - n % 10)
  }

  /** The counts the source checks at, compared with "6, then every 10 after it". */
  lemma TitleCheckCounts()
    ensures TitleCheckDue(6) && TitleCheckDue(10) && TitleCheckDue(20) && TitleCheckDue(30)
    ensures !TitleCheckDue(16) && !TitleCheckDue(26) && !TitleCheckDue(5) && !TitleCheckDue(7)
    ensures NextTitleCheck(7) == 10
  {
  }
}
