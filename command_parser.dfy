/**
 * Classification of the raw palette input into one of six command types
 * (src/utils/commandParser.ts). The tests run on the lower-cased, trimmed
 * input in a fixed order; the first one that holds decides the type.
 */
module CommandParser {
  import opened Strings

  datatype CommandType = TabSearch | Google | YouTube | Close | CloseDuplicate | OpenUrl

  /** `query` is the argument of the command, `originalQuery` the raw input. */
  datatype ParsedCommand = ParsedCommand(kind: CommandType, query: string, originalQuery: string)

  /** The input as the tests see it: lower-cased, then trimmed. */
  function Normalise(input: string): string
  {
    Trim(Lower(input))
  }

  /**
   * `parseCommand`. The argument offsets count from the start of the raw
   * input, while the prefix tests run on the trimmed one: the first 'g' (or
   * 'y') of the normalised input is always at position 0.
   */
  function ParseCommand(input: string): (p: ParsedCommand)
    ensures p.originalQuery == input
    ensures p.kind == TabSearch ==> p.query == input
  {
    Classify(input, Normalise(input))
  }

  /** The tests of `parseCommand`, in order, given the raw input and its normalised form. */
  function Classify(input: string, lower: string): (p: ParsedCommand)
    ensures p.originalQuery == input
    ensures p.kind == TabSearch ==> p.query == input
  {
    if StartsWith(lower, "g ") || StartsWith(lower, "google ") then
      ParsedCommand(Google, Trim(Drop(input, 0 + if StartsWith(lower, "google ") then 7 else 2)), input)
    else if StartsWith(lower, "y ") || StartsWith(lower, "youtube ") then
      ParsedCommand(YouTube, Trim(Drop(input, 0 + if StartsWith(lower, "youtube ") then 8 else 2)), input)
    else if StartsWith(lower, "close duplicate") then
      ParsedCommand(CloseDuplicate, "", input)
    else if StartsWith(lower, "close ") then
      ParsedCommand(Close, Trim(Drop(input, 6)), input)
    else if '.' in input && ' ' !in input
      && (StartsWith(input, "http://") || StartsWith(input, "https://") || '.' in input) then
      ParsedCommand(OpenUrl, input, input)
    else
      ParsedCommand(TabSearch, input, input)
  }

  /** True when one of the four command prefixes starts the normalised input. */
  predicate HasCommandPrefix(lower: string)
  {
    StartsWith(lower, "g ") || StartsWith(lower, "google ") || StartsWith(lower, "y ")
    || StartsWith(lower, "youtube ") || StartsWith(lower, "close ")
  }

  /** A prefix holding a space cannot start a string without one. */
  lemma NoSpaceNoStart(s: string, p: string, k: nat)
    requires ' ' !in s && k < |p| && p[k] == ' '
    ensures !StartsWith(s, p)
  {
    if |p| <= |s| {
      assert s[k] != ' ';
    }
  }

  /** Lower-casing and trimming add no space. */
  lemma NoSpaceNormalised(input: string)
    requires ' ' !in input
    ensures ' ' !in Normalise(input)
  {
    LowerKeepsOthers(input, ' ');
    if ' ' in Normalise(input) {
      TrimSubset(Lower(input), ' ');
    }
  }

  /** Every command prefix contains a space, so a string without one starts with none of them. */
  lemma NoSpaceNoCommand(lower: string)
    requires ' ' !in lower
    ensures !HasCommandPrefix(lower) && !StartsWith(lower, "close duplicate")
  {
    NoSpaceNoStart(lower, "g ", 1);
    NoSpaceNoStart(lower, "google ", 6);
    NoSpaceNoStart(lower, "y ", 1);
    NoSpaceNoStart(lower, "youtube ", 7);
    NoSpaceNoStart(lower, "close ", 5);
    NoSpaceNoStart(lower, "close duplicate", 5);
  }

  /** An input without a space carries no command prefix once normalised. */
  lemma NoSpaceNoPrefix(input: string)
    requires ' ' !in input
    ensures !HasCommandPrefix(Normalise(input)) && !StartsWith(Normalise(input), "close duplicate")
  {
    NoSpaceNormalised(input);
    NoSpaceNoCommand(Normalise(input));
  }

  /**
   * The type is openUrl exactly when the input contains '.' and no space:
   * no input without a space can carry one of the earlier prefixes.
   */
  lemma OpenUrlIff(input: string)
    ensures ParseCommand(input).kind == OpenUrl <==> '.' in input && ' ' !in input
    ensures ParseCommand(input).kind == OpenUrl ==> ParseCommand(input).query == input
  {
    if ' ' !in input {
      NoSpaceNoPrefix(input);
    }
  }

  /** Two prefixes that differ at some position cannot both start `s`. */
  lemma Excludes(s: string, p: string, q: string, k: nat)
    requires StartsWith(s, p) && k < |p| && k < |q| && p[k] != q[k]
    ensures !StartsWith(s, q)
  {
    assert s[k] == p[k];
  }

  /** The branch a normalised "g " prefix takes: the argument starts after two characters. */
  lemma ClassifyGoogle(input: string, lower: string)
    requires StartsWith(lower, "g ")
    ensures Classify(input, lower) == ParsedCommand(Google, Trim(Drop(input, 2)), input)
  {
    Excludes(lower, "g ", "google ", 1);
  }

  /** The branch a normalised "y " prefix takes: the argument starts after two characters. */
  lemma ClassifyYouTube(input: string, lower: string)
    requires StartsWith(lower, "y ")
    ensures Classify(input, lower) == ParsedCommand(YouTube, Trim(Drop(input, 2)), input)
  {
    Excludes(lower, "y ", "g ", 0);
    Excludes(lower, "y ", "google ", 0);
    Excludes(lower, "y ", "youtube ", 1);
  }

  /** The branch a normalised "youtube " prefix takes: the argument starts after eight characters. */
  lemma ClassifyYouTubeLong(input: string, lower: string)
    requires StartsWith(lower, "youtube ")
    ensures Classify(input, lower) == ParsedCommand(YouTube, Trim(Drop(input, 8)), input)
  {
    Excludes(lower, "youtube ", "g ", 0);
    Excludes(lower, "youtube ", "google ", 0);
  }

  /** The branch a normalised "close duplicate" prefix takes. */
  lemma ClassifyCloseDuplicate(input: string, lower: string)
    requires StartsWith(lower, "close duplicate")
    ensures Classify(input, lower) == ParsedCommand(CloseDuplicate, "", input)
  {
    Excludes(lower, "close duplicate", "g ", 0);
    Excludes(lower, "close duplicate", "google ", 0);
    Excludes(lower, "close duplicate", "y ", 0);
    Excludes(lower, "close duplicate", "youtube ", 0);
  }

  /** The branch a normalised "close " prefix takes when "duplicate" does not follow. */
  lemma ClassifyClose(input: string, lower: string)
    requires StartsWith(lower, "close ") && !StartsWith(lower, "close duplicate")
    ensures Classify(input, lower) == ParsedCommand(Close, Trim(Drop(input, 6)), input)
  {
    Excludes(lower, "close ", "g ", 0);
    Excludes(lower, "close ", "google ", 0);
    Excludes(lower, "close ", "y ", 0);
    Excludes(lower, "close ", "youtube ", 0);
  }

  /** "close duplicate" followed by anything discards the rest of the input. */
  lemma CloseDuplicateIgnoresRest(input: string)
    requires StartsWith(Normalise(input), "close duplicate")
    ensures ParseCommand(input) == ParsedCommand(CloseDuplicate, "", input)
  {
    ClassifyCloseDuplicate(input, Normalise(input));
  }

  /** "close " followed by a non-blank argument not starting "duplicate" is a close command. */
  lemma CloseArgument(x: string)
    requires !IsBlank(x) && !StartsWith(Lower(x), "duplicate")
    ensures ParseCommand("close " + x) == ParsedCommand(Close, Trim(x), "close " + x)
  {
    CommandWords();
    PrefixedStarts("close ", x);
    NotCloseDuplicate(x);
    ClassifyClose("close " + x, Normalise("close " + x));
    assert Drop("close " + x, 6) == x;
  }

  lemma NotCloseDuplicate(x: string)
    requires !IsBlank(x) && !StartsWith(Lower(x), "duplicate")
    ensures !StartsWith(Normalise("close " + x), "close duplicate")
  {
    if StartsWith(Normalise("close " + x), "close duplicate") {
      CloseDuplicateArgument(x);
    }
  }

  lemma CloseDuplicateArgument(x: string)
    requires !IsBlank(x) && StartsWith(Normalise("close " + x), "close duplicate")
    ensures StartsWith(Lower(x), "duplicate")
  {
    CommandWords();
    NormalisePrefix("close ", x);
    DuplicateAfterClose(x, Normalise("close " + x));
  }

  lemma DuplicateAfterClose(x: string, lower: string)
    requires lower == "close " + TrimEnd(Lower(x))
    requires StartsWith(lower, "close duplicate")
    ensures StartsWith(Lower(x), "duplicate")
  {
    assert "close " + "duplicate" == "close duplicate";
    PrefixAfterWord("close ", TrimEnd(Lower(x)), Lower(x), "duplicate");
  }

  /** If w + t starts with w + d and t is a prefix of s, then s starts with d. */
  lemma PrefixAfterWord(w: string, t: string, s: string, d: string)
    requires StartsWith(w + t, w + d)
    requires |t| <= |s| && t == s[..|t|]
    ensures StartsWith(s, d)
  {
    assert forall k :: 0 <= k < |d| ==> d[k] == (w + d)[|w| + k] == (w + t)[|w| + k] == t[k];
    assert s[..|d|] == d;
  }

  /** A command word: lower case, and not starting with whitespace. */
  predicate IsCommandWord(w: string)
  {
    w != [] && IsLower(w) && !IsWhitespace(w[0])
  }

  /** The words that start a command are command words. */
  lemma CommandWords()
    ensures IsCommandWord("g ") && IsCommandWord("google ") && IsCommandWord("y ")
    ensures IsCommandWord("youtube ") && IsCommandWord("close ")
  {
  }

  /** The normalised form of a command word followed by a non-blank argument starts with that word. */
  lemma PrefixedStarts(w: string, x: string)
    requires IsCommandWord(w)
    requires !IsBlank(x)
    ensures StartsWith(Normalise(w + x), w)
  {
    NormalisePrefix(w, x);
  }

  /** For an input with no leading whitespace, "g x" gives a google query x, trimmed. */
  lemma GoogleArgument(x: string)
    requires !IsBlank(x)
    ensures ParseCommand("g " + x) == ParsedCommand(Google, Trim(x), "g " + x)
  {
    CommandWords();
    PrefixedStarts("g ", x);
    ClassifyGoogle("g " + x, Normalise("g " + x));
    assert Drop("g " + x, 2) == x;
  }

  /** For an input with no leading whitespace, "google x" gives a google query x, trimmed. */
  lemma GoogleLongArgument(x: string)
    requires !IsBlank(x)
    ensures ParseCommand("google " + x) == ParsedCommand(Google, Trim(x), "google " + x)
  {
    CommandWords();
    PrefixedStarts("google ", x);
    assert Drop("google " + x, 7) == x;
  }

  /** For an input with no leading whitespace, "y x" gives a youtube query x, trimmed. */
  lemma YouTubeArgument(x: string)
    requires !IsBlank(x)
    ensures ParseCommand("y " + x) == ParsedCommand(YouTube, Trim(x), "y " + x)
  {
    CommandWords();
    PrefixedStarts("y ", x);
    ClassifyYouTube("y " + x, Normalise("y " + x));
    assert Drop("y " + x, 2) == x;
  }

  /** For an input with no leading whitespace, "youtube x" gives a youtube query x, trimmed. */
  lemma YouTubeLongArgument(x: string)
    requires !IsBlank(x)
    ensures ParseCommand("youtube " + x) == ParsedCommand(YouTube, Trim(x), "youtube " + x)
  {
    CommandWords();
    PrefixedStarts("youtube ", x);
    ClassifyYouTubeLong("youtube " + x, Normalise("youtube " + x));
    assert Drop("youtube " + x, 8) == x;
  }

  /**
   * Lower-casing and trimming w + x, for a lower-case prefix `w` that starts
   * with a non-whitespace character and a non-blank `x`, keeps `w` whole.
   */
  lemma NormalisePrefix(w: string, x: string)
    requires IsCommandWord(w)
    requires !IsBlank(x)
    ensures Normalise(w + x) == w + TrimEnd(Lower(x))
  {
    LowerAppend(w, x);
    LowerOfLower(w);
    LowerNotBlank(x);
    TrimEndAppend(w, Lower(x));
    assert (w + TrimEnd(Lower(x)))[0] == w[0];
  }

  /**
   * Trimming removes the space a bare prefix needs: "google" followed only by
   * whitespace is a tab search.
   */
  lemma BarePrefixIsTabSearch(ws: string)
    requires forall i :: 0 <= i < |ws| ==> IsWhitespace(ws[i])
    ensures ParseCommand("google" + ws).kind == TabSearch
  {
    NormaliseBare(ws);
    assert '.' !in "google" + ws;
    ClassifyBare("google" + ws);
  }

  /** With "google" alone as the normalised form, no test holds but the last. */
  lemma ClassifyBare(input: string)
    requires '.' !in input
    ensures Classify(input, "google").kind == TabSearch
  {
    var lower := "google";
    DiffersAt(lower, "g ", 1);
    DiffersAt(lower, "y ", 0);
    DiffersAt(lower, "youtube ", 0);
    DiffersAt(lower, "close ", 0);
    DiffersAt(lower, "close duplicate", 0);
    assert !StartsWith(lower, "google ");
  }

  lemma NormaliseBare(ws: string)
    requires forall i :: 0 <= i < |ws| ==> IsWhitespace(ws[i])
    ensures Normalise("google" + ws) == "google"
  {
    GoogleWord();
    NormaliseWordSpaces("google", ws);
  }

  /** "google" is lower case and has no whitespace at either end. */
  lemma GoogleWord()
    ensures IsCommandWord("google") && !IsWhitespace("google"[5])
  {
  }

  /** A command word followed by whitespace only normalises to the word. */
  lemma NormaliseWordSpaces(w: string, ws: string)
    requires IsCommandWord(w) && !IsWhitespace(w[|w| - 1])
    requires forall i :: 0 <= i < |ws| ==> IsWhitespace(ws[i])
    ensures Normalise(w + ws) == w
  {
    LowerAppend(w, ws);
    LowerOfLower(w);
    assert Lower(ws) == ws;
    TrimEndAll(w, ws);
  }

  lemma {:induction false} TrimEndAll(a: string, ws: string)
    requires a != [] && !IsWhitespace(a[|a| - 1])
    requires forall i :: 0 <= i < |ws| ==> IsWhitespace(ws[i])
    ensures TrimEnd(a + ws) == a
    decreases |ws|
  {
    if ws == [] {
      assert a + ws == a;
    } else {
      assert (a + ws)[..|a + ws| - 1] == a + ws[..|ws| - 1];
      TrimEndAll(a, ws[..|ws| - 1]);
    }
  }
}
