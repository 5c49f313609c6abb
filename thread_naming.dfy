/**
 * Deriving a Discord thread name from the first question of a session
 * (`HumanInDiscord.create_thread_name`). Discord accepts names of 1 to 100
 * characters; the derivation is total and always lands in that range.
 */
module ThreadNaming {

  import opened Wrappers
  import opened Text

  /** The fixed name used when nothing usable can be derived. */
  const DefaultTitle: string := "AI Assistant Question"

  /** Discord's upper bound on a thread name. */
  const MaxNameLength: nat := 100

  /** The sentence delimiters, tried in this order. */
  const Delimiters: seq<char> := ['.', '!', '?']

  /** `s.split('\n')[0]`: the text up to the first line break. */
  function FirstLine(s: string): (line: string)
    ensures |line| <= |s| && line == s[..|line|]
    ensures '\n' !in line
    ensures '\n' !in s ==> line == s
    ensures '\n' in s ==> |line| < |s| && s[|line|] == '\n'
  {
    Split(s, '\n')[0]
  }

  /** The first delimiter, in the order of `Delimiters`, that occurs in `line`. */
  function ChooseDelimiter(line: string): (d: Option<char>)
    ensures d.None? <==> forall k | 0 <= k < |Delimiters| :: Delimiters[k] !in line
    ensures d.Some? ==> exists k | 0 <= k < |Delimiters| ::
              && Delimiters[k] == d.value && d.value in line
              && forall j | 0 <= j < k :: Delimiters[j] !in line
  {
    assert Delimiters[0] == '.' && Delimiters[1] == '!' && Delimiters[2] == '?';
    if '.' in line then Some('.')
    else if '!' in line then Some('!')
    else if '?' in line then Some('?')
    else None
  }

  /** `[s.strip() for s in parts if s.strip()]`. */
  function NonBlank(parts: seq<string>): (r: seq<string>)
    ensures forall k | 0 <= k < |r| :: r[k] != []
  {
    if parts == [] then []
    else if Strip(parts[0]) != [] then [Strip(parts[0])] + NonBlank(parts[1..])
    else NonBlank(parts[1..])
  }

  /** Each kept sentence is the stripped form of one of the parts. */
  lemma {:induction false} NonBlankFrom(parts: seq<string>, k: nat) returns (j: nat)
    requires k < |NonBlank(parts)|
    ensures j < |parts| && NonBlank(parts)[k] == Strip(parts[j])
  {
    if Strip(parts[0]) != [] {
      if k == 0 {
        j := 0;
      } else {
        var i := NonBlankFrom(parts[1..], k - 1);
        j := i + 1;
      }
    } else {
      var i := NonBlankFrom(parts[1..], k);
      j := i + 1;
    }
  }

  /**
   * The sentences the name is chosen from: the non-blank stripped pieces of
   * the line split on its delimiter, or the whole line when there are none.
   */
  function Sentences(line: string): (r: seq<string>)
    ensures r != []
  {
    var split := match ChooseDelimiter(line)
      case None => []
      case Some(d) => NonBlank(Split(line, d));
    if split == [] then [line] else split
  }

  /** The sentence itself when it is one of the split pieces, stripped. */
  lemma SentenceInfix(line: string, k: nat)
    requires k < |Sentences(line)|
    ensures IsInfix(Sentences(line)[k], line)
  {
    var d := ChooseDelimiter(line);
    var split := if d.None? then [] else NonBlank(Split(line, d.value));
    if split == [] {
      assert Slice(line, 0, |line|) == line;
    } else {
      var j := NonBlankFrom(Split(line, d.value), k);
      SplitPieceInfix(line, d.value, j);
      InfixTransitive(Sentences(line)[k], Split(line, d.value)[j], line);
    }
  }

  /** The sentence a name is cut from: the first one holding a '?', else the first one. */
  function PickSentence(sentences: seq<string>): (title: string)
    requires sentences != []
    ensures FirstWith(sentences, {'?'}).Some? ==>
              && title == Strip(FirstWith(sentences, {'?'}).value)
              && '?' in title
    ensures FirstWith(sentences, {'?'}).None? ==> title == Strip(sentences[0])
  {
    var question := match FirstWith(sentences, {'?'})
      case Some(s) => (QuestionKept(s); Strip(s))
      case None => [];
    if question != [] then question else Strip(sentences[0])
  }

  /** A sentence holding a '?' keeps it when stripped. */
  lemma QuestionKept(s: string)
    requires HasAny(s, {'?'})
    ensures '?' in Strip(s)
  {
    var k :| 0 <= k < |s| && s[k] in {'?'};
    StripKeeps(s, '?');
  }

  /** `create_thread_name`. */
  function ThreadName(question: string): (title: string)
    ensures 1 <= |title| <= MaxNameLength
    ensures !IsSpace(title[0])
    ensures AllSpace(question) ==> title == DefaultTitle
  {
    var stripped := Strip(question);
    if stripped == [] then DefaultTitle
    else
      var picked := PickSentence(Sentences(FirstLine(stripped)));
      var title := if picked == [] then DefaultTitle else picked;
      var title := Truncate(title, MaxNameLength);
      if |title| < 1 || |title| > MaxNameLength then DefaultTitle else title
  }

  /** A non-empty pick is one of the sentences, stripped. */
  lemma PickedSentence(sentences: seq<string>) returns (k: nat)
    requires sentences != []
    ensures k < |sentences|
    ensures PickSentence(sentences) == [] || PickSentence(sentences) == Strip(sentences[k])
  {
    match FirstWith(sentences, {'?'})
    case Some(s) =>
      if Strip(s) != [] {
        var i :| 0 <= i < |sentences| && sentences[i] == s;
        k := i;
      } else {
        k := 0;
      }
    case None =>
      k := 0;
  }

  /** The picked sentence is a contiguous piece of the line it came from. */
  lemma PickIsInfix(line: string)
    ensures var picked := PickSentence(Sentences(line));
            picked == [] || IsInfix(picked, line)
  {
    var sentences := Sentences(line);
    var picked := PickSentence(sentences);
    if picked != [] {
      var k := PickedSentence(sentences);
      SentenceInfix(line, k);
      InfixTransitive(picked, sentences[k], line);
    }
  }

  /** For a question that is not blank, the name is the picked sentence cut to 100 characters. */
  lemma NameIsPick(question: string)
    requires !AllSpace(question)
    ensures var picked := PickSentence(Sentences(FirstLine(Strip(question))));
            ThreadName(question) == if picked == [] then DefaultTitle else Truncate(picked, MaxNameLength)
  {
  }

  /** The first piece holding a '?' is the first kept sentence holding one. */
  lemma {:induction false} FirstQuestionPiece(pieces: seq<string>, k: nat)
    requires k < |pieces| && '?' in pieces[k]
    requires forall j | 0 <= j < k :: '?' !in pieces[j]
    ensures FirstWith(NonBlank(pieces), {'?'}) == Some(Strip(pieces[k]))
  {
    var p := pieces[0];
    if k == 0 {
      StripKeeps(p, '?');
      var i :| 0 <= i < |Strip(p)| && Strip(p)[i] == '?';
      assert NonBlank(pieces)[0] == Strip(p);
    } else {
      StripAddsNothing(p, '?');
      FirstQuestionPiece(pieces[1..], k - 1);
      assert pieces[1..][k - 1] == pieces[k];
      if Strip(p) != [] {
        assert NonBlank(pieces) == [Strip(p)] + NonBlank(pieces[1..]);
        assert !HasAny(Strip(p), {'?'});
        assert NonBlank(pieces)[1..] == NonBlank(pieces[1..]);
      }
    }
  }

  /** The first piece that strips to something is the first kept sentence. */
  lemma {:induction false} FirstNonBlankPiece(pieces: seq<string>, k: nat)
    requires k < |pieces| && Strip(pieces[k]) != []
    requires forall j | 0 <= j < k :: Strip(pieces[j]) == []
    ensures NonBlank(pieces) != [] && NonBlank(pieces)[0] == Strip(pieces[k])
  {
    if k > 0 {
      FirstNonBlankPiece(pieces[1..], k - 1);
      assert pieces[1..][k - 1] == pieces[k];
    }
  }

  /** Pieces without a '?' give kept sentences without one. */
  lemma NoQuestionPiece(pieces: seq<string>)
    requires forall j | 0 <= j < |pieces| :: '?' !in pieces[j]
    ensures FirstWith(NonBlank(pieces), {'?'}) == None
  {
    forall k | 0 <= k < |NonBlank(pieces)| ensures !HasAny(NonBlank(pieces)[k], {'?'}) {
      var j := NonBlankFrom(pieces, k);
      StripAddsNothing(pieces[j], '?');
    }
  }

  /** Pieces that all strip to nothing leave no sentence. */
  lemma {:induction false} AllBlankPieces(pieces: seq<string>)
    requires forall j | 0 <= j < |pieces| :: Strip(pieces[j]) == []
    ensures NonBlank(pieces) == []
  {
    if pieces != [] {
      AllBlankPieces(pieces[1..]);
    }
  }

  /** The pick of a line with a piece holding a '?': the first such piece, stripped. */
  lemma PickOfQuestionPiece(line: string, d: char, k: nat)
    requires ChooseDelimiter(line) == Some(d)
    requires var pieces := Split(line, d);
             && k < |pieces| && '?' in pieces[k]
             && forall j | 0 <= j < k :: '?' !in pieces[j]
    ensures var picked := Strip(Split(line, d)[k]);
            picked != [] && PickSentence(Sentences(line)) == picked
  {
    var pieces := Split(line, d);
    FirstQuestionPiece(pieces, k);
    assert Sentences(line) == NonBlank(pieces);
    StripStrip(pieces[k]);
    StripKeeps(pieces[k], '?');
  }

  /** The pick of a line without a '?' in its pieces: the first piece that strips to something. */
  lemma PickOfFirstPiece(line: string, d: char, k: nat)
    requires ChooseDelimiter(line) == Some(d)
    requires var pieces := Split(line, d);
             && (forall j | 0 <= j < |pieces| :: '?' !in pieces[j])
             && k < |pieces| && Strip(pieces[k]) != []
             && forall j | 0 <= j < k :: Strip(pieces[j]) == []
    ensures PickSentence(Sentences(line)) == Strip(Split(line, d)[k])
  {
    var pieces := Split(line, d);
    FirstNonBlankPiece(pieces, k);
    NoQuestionPiece(pieces);
    assert Sentences(line) == NonBlank(pieces);
    StripStrip(pieces[k]);
  }

  /** The pick of a line whose pieces all strip to nothing: the line itself, stripped. */
  lemma PickOfBlankPieces(line: string, d: char)
    requires ChooseDelimiter(line) == Some(d)
    requires forall j | 0 <= j < |Split(line, d)| :: Strip(Split(line, d)[j]) == []
    ensures PickSentence(Sentences(line)) == Strip(line)
  {
    var pieces := Split(line, d);
    assert forall j | 0 <= j < |pieces| :: Strip(pieces[j]) == [];
    AllBlankPieces(pieces);
    assert Sentences(line) == [line];
    StripStrip(line);
  }

  /**
   * Split on its delimiter, a first line with a piece holding a '?' is named
   * by the first such piece, stripped and cut to 100 characters.
   */
  lemma NameFromQuestionPiece(question: string, d: char, k: nat)
    requires !AllSpace(question)
    requires ChooseDelimiter(FirstLine(Strip(question))) == Some(d)
    requires var pieces := Split(FirstLine(Strip(question)), d);
             && k < |pieces| && '?' in pieces[k]
             && forall j | 0 <= j < k :: '?' !in pieces[j]
    ensures ThreadName(question) == Truncate(Strip(Split(FirstLine(Strip(question)), d)[k]), MaxNameLength)
  {
    PickOfQuestionPiece(FirstLine(Strip(question)), d, k);
    NameIsPick(question);
  }

  /**
   * Without a '?' in any piece, the name is the first piece that strips to
   * something, stripped and cut to 100 characters.
   */
  lemma NameFromFirstPiece(question: string, d: char, k: nat)
    requires !AllSpace(question)
    requires ChooseDelimiter(FirstLine(Strip(question))) == Some(d)
    requires var pieces := Split(FirstLine(Strip(question)), d);
             && (forall j | 0 <= j < |pieces| :: '?' !in pieces[j])
             && k < |pieces| && Strip(pieces[k]) != []
             && forall j | 0 <= j < k :: Strip(pieces[j]) == []
    ensures ThreadName(question) == Truncate(Strip(Split(FirstLine(Strip(question)), d)[k]), MaxNameLength)
  {
    PickOfFirstPiece(FirstLine(Strip(question)), d, k);
    NameIsPick(question);
  }

  /**
   * When every piece strips to nothing, the whole first line is used,
   * stripped and cut to 100 characters.
   */
  lemma NameFromBlankPieces(question: string, d: char)
    requires !AllSpace(question)
    requires ChooseDelimiter(FirstLine(Strip(question))) == Some(d)
    requires var pieces := Split(FirstLine(Strip(question)), d);
             forall j | 0 <= j < |pieces| :: Strip(pieces[j]) == []
    ensures ThreadName(question) == Truncate(Strip(FirstLine(Strip(question))), MaxNameLength)
  {
    var stripped := Strip(question);
    var line := FirstLine(stripped);
    PickOfBlankPieces(line, d);
    assert line[0] == stripped[0];
    assert Strip(line) != [];
    NameIsPick(question);
  }

  /**
   * The name is a contiguous piece of the first line of the stripped
   * question, or the default name: nothing after the first line break is used.
   */
  lemma NameFromFirstLine(question: string)
    ensures var title := ThreadName(question);
            title == DefaultTitle || IsInfix(title, FirstLine(Strip(question)))
    ensures '\n' !in ThreadName(question)
  {
    var title := ThreadName(question);
    if !AllSpace(question) {
      NameFromLine(question);
    }
    if title == DefaultTitle {
      assert DefaultTitle == "AI Assistant " + "Question";
    } else {
      InfixChars(title, FirstLine(Strip(question)));
    }
  }

  /** The non-default name of a question that is not blank is a piece of its first line. */
  lemma NameFromLine(question: string)
    requires !AllSpace(question)
    ensures var title := ThreadName(question);
            title == DefaultTitle || IsInfix(title, FirstLine(Strip(question)))
  {
    var title := ThreadName(question);
    var line := FirstLine(Strip(question));
    var picked := PickSentence(Sentences(line));
    NameIsPick(question);
    if picked != [] {
      PickIsInfix(line);
      InfixOfPrefix(picked, line, |title|);
    }
  }

  /** A first line without any delimiter is used whole, stripped and cut to 100 characters. */
  lemma NameWithoutDelimiter(question: string)
    requires !AllSpace(question)
    requires forall k | 0 <= k < |Delimiters| :: Delimiters[k] !in FirstLine(Strip(question))
    ensures ThreadName(question) == Truncate(Strip(FirstLine(Strip(question))), MaxNameLength)
  {
    var stripped := Strip(question);
    var line := FirstLine(stripped);
    assert line[0] == stripped[0];
    assert Strip(line) != [];
    assert '.' !in line && '!' !in line && '?' !in line by {
      assert Delimiters[0] == '.' && Delimiters[1] == '!' && Delimiters[2] == '?';
    }
    assert Sentences(line) == [line];
    assert !HasAny(line, {'?'});
    assert PickSentence([line]) == Strip(line);
  }

  /** A question of 150 'a's becomes its first 100 characters. */
  lemma LongQuestionIsCut()
    ensures ThreadName(seq(150, _ => 'a')) == seq(100, _ => 'a')
  {
    var q := seq(150, _ => 'a');
    assert Strip(q) == q by {
      assert LStrip(q) == q;
      assert RStrip(q) == q;
    }
    assert FirstLine(q) == q;
    NameWithoutDelimiter(q);
    assert q[..100] == seq(100, _ => 'a');
  }

  /** A line whose only '.' ends it splits into one sentence: the line without the period. */
  lemma SentencesOfPeriodEnded(a: string)
    requires a != [] && !IsSpace(a[0]) && !IsSpace(a[|a| - 1]) && '.' !in a
    ensures Sentences(a + ".") == [a]
  {
    var q := a + ".";
    StripIdentity(a);
    assert ChooseDelimiter(q) == Some('.');
    SplitAfterPiece(a, '.', "");
    assert a + ['.'] + "" == q;
    assert Split(q, '.') == [a, ""];
    assert NonBlank([""]) == [] by {
      assert AllSpace("");
      assert [""][1..] == [];
    }
    assert NonBlank([a, ""]) == [a] by {
      assert [a, ""][1..] == [""];
    }
  }

  /**
   * '.' is tried before '?': a line whose only '.' ends it is named by the
   * whole line without the period, even when it holds a '?' earlier on.
   */
  lemma PeriodBeforeQuestionMark(a: string)
    requires a != [] && !IsSpace(a[0]) && !IsSpace(a[|a| - 1])
    requires '.' !in a && '\n' !in a && |a| <= MaxNameLength
    ensures ThreadName(a + ".") == a
  {
    var q := a + ".";
    StripIdentity(q);
    assert '\n' !in q;
    assert FirstLine(q) == q;
    SentencesOfPeriodEnded(a);
    StripIdentity(a);
    assert PickSentence([a]) == a;
    NameIsPick(q);
  }

  /** The question is not cut at its '?': the name runs to the final period. */
  lemma DiscordExample(question: string)
    requires question == "Why does my Discord " + "bot crash on startup" + "? It throws an error" + "."
    ensures ThreadName(question) == question[..|question| - 1]
  {
    var a := "Why does my Discord " + "bot crash on startup" + "? It throws an error";
    ExampleLine("Why does my Discord ", "bot crash on startup", "? It throws an error");
    PeriodBeforeQuestionMark(a);
    assert question[..|question| - 1] == a;
  }

  lemma ExampleLine(p1: string, p2: string, p3: string)
    requires p1 == "Why does my Discord " && p2 == "bot crash on startup" && p3 == "? It throws an error"
    ensures var a := p1 + p2 + p3;
            && a != [] && !IsSpace(a[0]) && !IsSpace(a[|a| - 1])
            && '.' !in a && '\n' !in a && |a| <= MaxNameLength
  {
    PlainPiece(p1);
    PlainPiece(p2);
    PlainPiece(p3);
    assert p1[0] == 'W' && p3[|p3| - 1] == 'r';
  }

  lemma PlainPiece(p: string)
    requires p == "Why does my Discord " || p == "bot crash on startup" || p == "? It throws an error"
    ensures '.' !in p && '\n' !in p && |p| == 20
  {
  }

  /**
   * The delimiter loop of `create_thread_name`: split on the first delimiter
   * present, in the order of `Delimiters`, and stop at once (`break`).
   */
  method SplitSentences(firstLine: string) returns (sentences: seq<string>)
    ensures sentences == Sentences(firstLine)
  {
    sentences := [];
    var k := 0;
    assert Delimiters[0] == '.' && Delimiters[1] == '!' && Delimiters[2] == '?';
    while k < |Delimiters|
      invariant 0 <= k <= |Delimiters|
      invariant forall j | 0 <= j < k :: Delimiters[j] !in firstLine
      invariant sentences == []
    {
      var delimiter := Delimiters[k];
      if delimiter in firstLine {
        assert ChooseDelimiter(firstLine) == Some(delimiter);
        sentences := NonBlank(Split(firstLine, delimiter));
        break;
      }
      k := k + 1;
    }
    if sentences == [] {
      sentences := [firstLine];
    }
  }

  /**
   * The sentence loop of `create_thread_name`: the first sentence holding a
   * '?', stripped, or `None` (the source's `title = None`) when there is none.
   */
  method FindQuestion(sentences: seq<string>) returns (picked: Option<string>)
    ensures picked == match FirstWith(sentences, {'?'})
                      case Some(s) => Some(Strip(s))
                      case None => None
  {
    picked := None;
    var i := 0;
    while i < |sentences|
      invariant 0 <= i <= |sentences|
      invariant forall j | 0 <= j < i :: !HasAny(sentences[j], {'?'})
      invariant picked == None
    {
      if '?' in sentences[i] {
        FirstWithAt(sentences, {'?'}, i);
        picked := Some(Strip(sentences[i]));
        break;
      }
      i := i + 1;
    }
  }

  /** `create_thread_name`, step by step as the source runs it. */
  method CreateThreadName(question: string) returns (title: string)
    ensures title == ThreadName(question)
  {
    var stripped := Strip(question);
    if stripped == [] {
      return DefaultTitle;
    }
    var firstLine := FirstLine(stripped);
    var sentences := SplitSentences(firstLine);
    var picked := FindQuestion(sentences);
    title := if picked.Some? then picked.value else [];
    if picked.Some? {
      assert title == PickSentence(sentences) && title != [];
    }
    if title == [] {
      title := Strip(sentences[0]);
    }
    assert title == PickSentence(sentences);
    if title == [] {
      title := DefaultTitle;
    }
    if |title| > MaxNameLength {
      title := title[..MaxNameLength];
    }
    if |title| < 1 || |title| > MaxNameLength {
      title := DefaultTitle;
    }
    NameIsPick(question);
  }
}
