/**
 * chirps.go, cleanUpBadWords: the profanity filter applied to a chirp's body
 * before it is stored. The body is split on single spaces; every piece whose
 * lower-case form is one of the three banned words becomes "****"; the
 * pieces are joined back with single spaces.
 */
module Moderation {
  import opened Strings

  const BadWords: seq<string> := ["kerfuffle", "sharbert", "fornax"]
  const Stars := "****"

  predicate IsBadWord(w: string) {
    ToLower(w) in BadWords
  }

  /** The replacement of one piece. */
  function Redact(w: string): string {
    if IsBadWord(w) then Stars else w
  }

  function RedactAll(ws: seq<string>): (r: seq<string>)
    ensures |r| == |ws|
    ensures forall i | 0 <= i < |ws| :: r[i] == Redact(ws[i])
  {
    seq(|ws|, i requires 0 <= i < |ws| => Redact(ws[i]))
  }

  /** What cleanUpBadWords leaves in the body. */
  function Moderate(s: string): string {
    Join(RedactAll(Split(s)))
  }

  /** The request parameters the body is decoded into. */
  class Parameters {
    var body: string

    constructor (body: string)
      ensures this.body == body
    {
      this.body := body;
    }
  }

  /**
   * cleanUpBadWords(params): the pieces of the body are overwritten in place
   * in the slice strings.Split returns, then joined into the new body.
   */
  method CleanUpBadWords(params: Parameters)
    modifies params
    ensures params.body == Moderate(old(params.body))
  {
    var pieces := Split(params.body);
    var words := new string[|pieces|](i requires 0 <= i < |pieces| => pieces[i]);
    for i := 0 to words.Length
      invariant forall k | 0 <= k < i :: words[k] == Redact(pieces[k])
      invariant forall k | i <= k < words.Length :: words[k] == pieces[k]
    {
      if ToLower(words[i]) in BadWords {
        words[i] := Stars;
      }
    }
    assert words[..] == RedactAll(pieces);
    params.body := Join(words[..]);
  }

  lemma StarsNotBad()
    ensures !IsBadWord(Stars) && NoSpace(Stars)
  {
    assert ToLower(Stars) == Stars;
  }

  /** A banned word, in any case, has more runes and more bytes than "****". */
  lemma BadWordLonger(w: string)
    requires IsBadWord(w)
    ensures |Stars| < |w| && Utf8Len(Stars) < Utf8Len(w)
  {
    BadWordLength(w);
    StarsBytes();
  }

  lemma BadWordLength(w: string)
    requires IsBadWord(w)
    ensures |w| >= 6
  {
    var l := ToLower(w);
    assert l == BadWords[0] || l == BadWords[1] || l == BadWords[2];
    assert |BadWords[0]| == 9 && |BadWords[1]| == 8 && |BadWords[2]| == 6;
  }

  lemma StarsBytes()
    ensures Utf8Len(Stars) == 4
  {
  }

  /** Words of no banned length are never banned. */
  lemma OtherLengthNotBad(w: string)
    requires |w| != 6 && |w| != 8 && |w| != 9
    ensures !IsBadWord(w)
  {
    var l := ToLower(w);
    assert |BadWords[0]| == 9 && |BadWords[1]| == 8 && |BadWords[2]| == 6;
    assert l != BadWords[0] && l != BadWords[1] && l != BadWords[2];
  }

  lemma RedactAllNoSpace(ws: seq<string>)
    requires AllNoSpace(ws)
    ensures AllNoSpace(RedactAll(ws))
  {
    StarsNotBad();
  }

  /**
   * The pieces of the moderated body are the pieces of the input, one for
   * one; a piece changes exactly when it is a banned word, and then it
   * becomes "****".
   */
  lemma ModeratePieces(s: string)
    ensures |Split(Moderate(s))| == |Split(s)|
    ensures forall i | 0 <= i < |Split(s)| ::
      && (Split(Moderate(s))[i] != Split(s)[i] <==> IsBadWord(Split(s)[i]))
      && (IsBadWord(Split(s)[i]) ==> Split(Moderate(s))[i] == Stars)
  {
    var ws := Split(s);
    SplitPiecesHaveNoSpace(s);
    RedactAllNoSpace(ws);
    SplitJoin(RedactAll(ws));
    forall i | 0 <= i < |ws| && IsBadWord(ws[i])
      ensures RedactAll(ws)[i] != ws[i]
    {
      StarsNotBad();
    }
  }

  /** A body without banned words is stored as sent. */
  lemma ModerateKeepsCleanText(s: string)
    requires forall i | 0 <= i < |Split(s)| :: !IsBadWord(Split(s)[i])
    ensures Moderate(s) == s
  {
    assert RedactAll(Split(s)) == Split(s);
    JoinSplit(s);
  }

  /** Moderating twice changes nothing more. */
  lemma ModerateIdempotent(s: string)
    ensures Moderate(Moderate(s)) == Moderate(s)
  {
    var ws := Split(s);
    SplitPiecesHaveNoSpace(s);
    RedactAllNoSpace(ws);
    SplitJoin(RedactAll(ws));
    StarsNotBad();
    assert RedactAll(RedactAll(ws)) == RedactAll(ws);
  }

  /** Moderation never lengthens the body, counted in runes or in UTF-8 bytes. */
  lemma ModerateNoLonger(s: string)
    ensures |Moderate(s)| <= |s|
    ensures Utf8Len(Moderate(s)) <= Utf8Len(s)
  {
    var ws := Split(s);
    forall i | 0 <= i < |ws| && IsBadWord(ws[i])
      ensures |Stars| <= |ws[i]| && Utf8Len(Stars) <= Utf8Len(ws[i])
    {
      BadWordLonger(ws[i]);
    }
    JoinNoLonger(RedactAll(ws), ws);
    JoinSplit(s);
  }

  /** The body after moderation, when the input is given by its pieces. */
  lemma ModerateByPieces(ws: seq<string>)
    requires |ws| >= 1 && AllNoSpace(ws)
    ensures Moderate(Join(ws)) == Join(RedactAll(ws))
  {
    SplitJoin(ws);
  }

  // Joins of a few words, stated over variables so that no literal text is
  // unfolded while the pieces are put together.

  lemma Join4(a: string, b: string, c: string, d: string)
    ensures Join([a, b, c, d]) == a + " " + b + " " + c + " " + d
  {
    JoinCons(c, [d]);
    assert [c] + [d] == [c, d];
    JoinCons(b, [c, d]);
    assert [b] + [c, d] == [b, c, d];
    JoinCons(a, [b, c, d]);
    assert [a] + [b, c, d] == [a, b, c, d];
  }

  lemma Join5(a: string, b: string, c: string, d: string, e: string)
    ensures Join([a, b, c, d, e]) == a + " " + b + " " + c + " " + d + " " + e
  {
    Join4(b, c, d, e);
    JoinCons(a, [b, c, d, e]);
    assert [a] + [b, c, d, e] == [a, b, c, d, e];
  }

  lemma Join6(a: string, b: string, c: string, d: string, e: string, f: string)
    ensures Join([a, b, c, d, e, f]) == a + " " + b + " " + c + " " + d + " " + e + " " + f
  {
    Join5(b, c, d, e, f);
    JoinCons(a, [b, c, d, e, f]);
    assert [a] + [b, c, d, e, f] == [a, b, c, d, e, f];
  }

  /** The empty body stays empty (the case of TestCleanUpBadWords with no text). */
  lemma ModerateEmpty()
    ensures Moderate("") == ""
  {
  }

  // The other cases of TestCleanUpBadWords, each from its pieces: how the
  // text splits, what each piece becomes, and how the result joins back.

  lemma ModerateExampleClean()
    ensures Moderate("I love coding in go") == "I love coding in go"
  {
    ExampleCleanPieces();
    ExampleCleanRedacted();
    ExampleCleanInput();
  }

  lemma ExampleCleanPieces()
    ensures Moderate("I love coding in go") == Join(RedactAll(["I", "love", "coding", "in", "go"]))
  {
    var ws := ["I", "love", "coding", "in", "go"];
    ExampleCleanInput();
    assert AllNoSpace(ws);
    ModerateByPieces(ws);
  }

  lemma ExampleCleanInput()
    ensures Join(["I", "love", "coding", "in", "go"]) == "I love coding in go"
  {
    Join5("I", "love", "coding", "in", "go");
  }

  lemma ExampleCleanRedacted()
    ensures RedactAll(["I", "love", "coding", "in", "go"]) == ["I", "love", "coding", "in", "go"]
  {
    OtherLengthNotBad("I");
    OtherLengthNotBad("love");
    assert !IsBadWord("coding") by { assert ToLower("coding")[0] == 'c'; }
    OtherLengthNotBad("in");
    OtherLengthNotBad("go");
  }

  lemma ModerateExampleOne()
    ensures Moderate("this is a kerfuffle") == "this is a ****"
  {
    ExampleOnePieces();
    ExampleOneRedacted();
    ExampleOneOutput();
  }

  lemma ExampleOnePieces()
    ensures Moderate("this is a kerfuffle") == Join(RedactAll(["this", "is", "a", "kerfuffle"]))
  {
    var ws := ["this", "is", "a", "kerfuffle"];
    ExampleOneInput();
    assert AllNoSpace(ws);
    ModerateByPieces(ws);
  }

  lemma ExampleOneInput()
    ensures Join(["this", "is", "a", "kerfuffle"]) == "this is a kerfuffle"
  {
    Join4("this", "is", "a", "kerfuffle");
  }

  lemma ExampleOneRedacted()
    ensures RedactAll(["this", "is", "a", "kerfuffle"]) == ["this", "is", "a", "****"]
  {
    OtherLengthNotBad("this");
    OtherLengthNotBad("is");
    OtherLengthNotBad("a");
    assert IsBadWord("kerfuffle") by { assert ToLower("kerfuffle") == "kerfuffle"; }
  }

  lemma ExampleOneOutput()
    ensures Join(["this", "is", "a", "****"]) == "this is a ****"
  {
    Join4("this", "is", "a", "****");
  }

  lemma ModerateExampleMixedCase()
    ensures Moderate("Fornax and Sharbert are banned") == "**** and **** are banned"
  {
    ExampleMixedCasePieces();
    ExampleMixedCaseRedacted();
    ExampleMixedCaseOutput();
  }

  lemma ExampleMixedCasePieces()
    ensures Moderate("Fornax and Sharbert are banned") == Join(RedactAll(["Fornax", "and", "Sharbert", "are", "banned"]))
  {
    var ws := ["Fornax", "and", "Sharbert", "are", "banned"];
    ExampleMixedCaseInput();
    assert AllNoSpace(ws);
    ModerateByPieces(ws);
  }

  lemma ExampleMixedCaseInput()
    ensures Join(["Fornax", "and", "Sharbert", "are", "banned"]) == "Fornax and Sharbert are banned"
  {
    Join5("Fornax", "and", "Sharbert", "are", "banned");
  }

  lemma ExampleMixedCaseRedacted()
    ensures RedactAll(["Fornax", "and", "Sharbert", "are", "banned"]) == ["****", "and", "****", "are", "banned"]
  {
    assert IsBadWord("Fornax") by { assert ToLower("Fornax") == "fornax"; }
    OtherLengthNotBad("and");
    assert IsBadWord("Sharbert") by { assert ToLower("Sharbert") == "sharbert"; }
    OtherLengthNotBad("are");
    assert !IsBadWord("banned") by { assert ToLower("banned")[0] == 'b'; }
  }

  lemma ExampleMixedCaseOutput()
    ensures Join(["****", "and", "****", "are", "banned"]) == "**** and **** are banned"
  {
    Join5("****", "and", "****", "are", "banned");
  }

  lemma ModerateExamplePunctuation()
    ensures Moderate("Sharbert! that was an awesome Fornax@") == "Sharbert! that was an awesome Fornax@"
  {
    ExamplePunctuationPieces();
    ExamplePunctuationRedacted();
    ExamplePunctuationInput();
  }

  lemma ExamplePunctuationPieces()
    ensures Moderate("Sharbert! that was an awesome Fornax@") == Join(RedactAll(["Sharbert!", "that", "was", "an", "awesome", "Fornax@"]))
  {
    var ws := ["Sharbert!", "that", "was", "an", "awesome", "Fornax@"];
    ExamplePunctuationInput();
    assert AllNoSpace(ws);
    ModerateByPieces(ws);
  }

  lemma ExamplePunctuationInput()
    ensures Join(["Sharbert!", "that", "was", "an", "awesome", "Fornax@"]) == "Sharbert! that was an awesome Fornax@"
  {
    Join6("Sharbert!", "that", "was", "an", "awesome", "Fornax@");
  }

  lemma ExamplePunctuationRedacted()
    ensures RedactAll(["Sharbert!", "that", "was", "an", "awesome", "Fornax@"]) == ["Sharbert!", "that", "was", "an", "awesome", "Fornax@"]
  {
    assert !IsBadWord("Sharbert!") by { assert ToLower("Sharbert!")[0] == 's'; }
    OtherLengthNotBad("that");
    OtherLengthNotBad("was");
    OtherLengthNotBad("an");
    OtherLengthNotBad("awesome");
    OtherLengthNotBad("Fornax@");
  }

}
