/**
  The game logic of `src/game/logic.py`: normalisation of words, the build of the word
  lists at start-up, the two-pass Wordle colouring of one guess and the keyboard status
  accumulated over a whole game.
*/
module Logic {
  import opened Wrappers
  import opened Text

  /** The letter ё, which normalisation folds into е. */
  const Yo: char := '\U{0451}'
  const Ye: char := '\U{0435}'

  /** `s.replace("ё", "е")`. */
  function ReplaceYo(s: string): (r: string)
    ensures |r| == |s|
    ensures forall i :: 0 <= i < |s| ==> r[i] == (if s[i] == Yo then Ye else s[i])
  {
    seq(|s|, i requires 0 <= i < |s| => if s[i] == Yo then Ye else s[i])
  }

  /** `normalize`: outer whitespace removed, lower-cased, ё written as е. */
  function Normalize(text: string): (r: string)
    ensures Yo !in r
    ensures |r| <= |text|
    ensures Trimmed(r)
  {
    var t := Strip(text);
    FoldShape(t);
    ReplaceYo(LowerStr(t))
  }

  /** Lower-casing and folding ё keep a stripped string stripped and leave no ё. */
  lemma FoldShape(t: string)
    requires Trimmed(t)
    ensures Trimmed(ReplaceYo(LowerStr(t)))
    ensures Yo !in ReplaceYo(LowerStr(t))
  {
    var r := ReplaceYo(LowerStr(t));
    if r != [] {
      assert r[0] == (if Lower(t[0]) == Yo then Ye else Lower(t[0]));
      assert r[|r| - 1] == (if Lower(t[|t| - 1]) == Yo then Ye else Lower(t[|t| - 1]));
    }
    forall i | 0 <= i < |r| ensures r[i] != Yo {
    }
  }

  /** A word that normalisation leaves alone. */
  predicate IsNormal(w: string) {
    Normalize(w) == w
  }

  /** Normalising twice is normalising once. */
  lemma NormalizeIdempotent(text: string)
    ensures Normalize(Normalize(text)) == Normalize(text)
  {
    var t := Strip(text);
    var r := ReplaceYo(LowerStr(t));
    FoldShape(t);
    StripTrimmed(r);
    FoldedLower(t);
    NoYoFixed(r);
  }

  /** A folded string is its own lower-case form. */
  lemma FoldedLower(t: string)
    ensures LowerStr(ReplaceYo(LowerStr(t))) == ReplaceYo(LowerStr(t))
  {
    var r := ReplaceYo(LowerStr(t));
    forall i | 0 <= i < |r| ensures Lower(r[i]) == r[i] {
      LowerIdempotent(t[i]);
    }
  }

  /** Folding ё changes nothing in a string without one. */
  lemma NoYoFixed(s: string)
    requires Yo !in s
    ensures ReplaceYo(s) == s
  {
  }

  /** The length and letter test applied to every dictionary entry. */
  predicate Admissible(w: string) {
    IsAlpha(w) && 4 <= |w| <= 11
  }

  /** Normalising an admissible word keeps it admissible and of the same length. */
  lemma NormalizeAdmissible(w: string)
    requires Admissible(w)
    ensures Admissible(Normalize(w)) && |Normalize(w)| == |w|
    ensures IsNormal(Normalize(w))
  {
    StripNoSpace(w);
    NormalizeIdempotent(w);
    var r := Normalize(w);
    assert r == ReplaceYo(LowerStr(w));
    forall i | 0 <= i < |r| ensures IsLetter(r[i]) {
      assert r[i] == (if Lower(w[i]) == Yo then Ye else Lower(w[i]));
    }
  }

  /** `x` is the normalised form of an admissible entry of `raw`. */
  ghost predicate MadeFrom(raw: seq<string>, x: string) {
    exists w :: w in raw && Admissible(w) && Normalize(w) == x
  }

  /** `[normalize(w) for w in raw if w.isalpha() and 4 <= len(w) <= 11]`. */
  function Clean(raw: seq<string>): (r: seq<string>)
    ensures forall x :: x in r ==> MadeFrom(raw, x)
    ensures forall w :: w in raw && Admissible(w) ==> Normalize(w) in r
  {
    if raw == [] then []
    else
      var head := if Admissible(raw[0]) then [Normalize(raw[0])] else [];
      var rest := Clean(raw[1..]);
      CleanSound(raw, head, rest);
      CleanComplete(raw, head, rest);
      head + rest
  }

  /** Every entry `Clean` keeps comes from an admissible raw word. */
  lemma CleanSound(raw: seq<string>, head: seq<string>, rest: seq<string>)
    requires raw != [] && head == (if Admissible(raw[0]) then [Normalize(raw[0])] else [])
    requires forall x :: x in rest ==> MadeFrom(raw[1..], x)
    ensures forall x :: x in head + rest ==> MadeFrom(raw, x)
  {
    forall x | x in head + rest ensures MadeFrom(raw, x) {
      if x in rest {
        var w :| w in raw[1..] && Admissible(w) && Normalize(w) == x;
        assert w in raw;
      } else {
        assert raw[0] in raw;
      }
    }
  }

  /** Every admissible raw word reaches `Clean`'s result in normalised form. */
  lemma CleanComplete(raw: seq<string>, head: seq<string>, rest: seq<string>)
    requires raw != [] && head == (if Admissible(raw[0]) then [Normalize(raw[0])] else [])
    requires forall w :: w in raw[1..] && Admissible(w) ==> Normalize(w) in rest
    ensures forall w :: w in raw && Admissible(w) ==> Normalize(w) in head + rest
  {
    forall w | w in raw && Admissible(w) ensures Normalize(w) in head + rest {
      if w != raw[0] {
        var k :| 0 <= k < |raw| && raw[k] == w;
        assert raw[1..][k - 1] == w;
      }
    }
  }

  /** The dictionary file: the main list (possible secrets) and the additional list. */
  datatype BaseWords = BaseWords(main: seq<string>, additional: seq<string>)

  /** The words of `raw` that become dictionary entries: filtered, de-duplicated, sorted. */
  function Rebuild(raw: seq<string>): seq<string> {
    Sort(Dedupe(Clean(raw)))
  }

  /**
    The start-up build: `WORDLIST` is the rebuilt main list, and the file is rewritten
    with it and the rebuilt additional list.
  */
  function BuildWordList(rawMain: seq<string>, rawAdditional: seq<string>): BaseWords {
    BaseWords(Rebuild(rawMain), Rebuild(rawAdditional))
  }

  /** An entry list as the build leaves it. */
  predicate WellFormedList(ws: seq<string>) {
    StrictlySorted(ws) && forall w :: w in ws ==> Admissible(w) && IsNormal(w)
  }

  /**
    A rebuilt list is strictly sorted, holds only admissible normalised words, and holds
    exactly the normalised forms of the admissible raw words.
  */
  lemma RebuildShape(raw: seq<string>)
    ensures WellFormedList(Rebuild(raw))
    ensures forall x :: x in Rebuild(raw) <==> exists w :: w in raw && Admissible(w) && Normalize(w) == x
  {
    var c := Clean(raw);
    SortDistinct(Dedupe(c));
    var r := Rebuild(raw);
    assert forall x :: x in r <==> x in Dedupe(c) by {
      forall x ensures x in r <==> x in Dedupe(c) {
        assert x in r <==> x in Elems(r);
        assert x in Dedupe(c) <==> x in Elems(Dedupe(c));
      }
    }
    assert forall x :: x in Dedupe(c) <==> x in c by {
      forall x ensures x in Dedupe(c) <==> x in c {
        assert x in Dedupe(c) <==> x in Elems(Dedupe(c));
        assert x in c <==> x in Elems(c);
      }
    }
    forall x | x in r ensures Admissible(x) && IsNormal(x) {
      var w :| w in raw && Admissible(w) && Normalize(w) == x;
      NormalizeAdmissible(w);
    }
  }

  /** Both lists of the start-up build are well formed; the main list is `WORDLIST`. */
  lemma BuildWordListShape(rawMain: seq<string>, rawAdditional: seq<string>)
    ensures WellFormedList(BuildWordList(rawMain, rawAdditional).main)
    ensures WellFormedList(BuildWordList(rawMain, rawAdditional).additional)
    ensures forall x :: x in BuildWordList(rawMain, rawAdditional).main <==>
      exists w :: w in rawMain && Admissible(w) && Normalize(w) == x
  {
    RebuildShape(rawMain);
    RebuildShape(rawAdditional);
  }

  // ---------------------------------------------------------------------------------------
  // Feedback for one guess

  /** One square of the feedback row (the GREEN, YELLOW and WHITE emoji). */
  datatype Mark = Green | Yellow | White

  /**
    The letters of `s` at positions `j..` that no guess letter matches in place: the
    pool the second pass draws yellows from.
  */
  function LeftoverFrom(s: string, g: string, j: nat): multiset<char>
    requires |g| <= |s| && j <= |s|
    decreases |s| - j
  {
    if j == |s| then multiset{}
    else (if j < |g| && g[j] == s[j] then multiset{} else multiset{s[j]}) + LeftoverFrom(s, g, j + 1)
  }

  /** The second pass from position `i` on, with `pool` the secret letters still unused. */
  function Colour(s: string, g: string, i: nat, pool: multiset<char>): (fb: seq<Mark>)
    requires |g| <= |s| && i <= |g|
    ensures |fb| == |g| - i
    decreases |g| - i
  {
    if i == |g| then []
    else if g[i] == s[i] then [Green] + Colour(s, g, i + 1, pool)
    else if g[i] in pool then [Yellow] + Colour(s, g, i + 1, pool - multiset{g[i]})
    else [White] + Colour(s, g, i + 1, pool)
  }

  /** `make_feedback(s, g)`: greens first, then yellows limited by the unused secret letters. */
  function Feedback(s: string, g: string): (fb: seq<Mark>)
    requires |g| <= |s|
  {
    Colour(s, g, 0, LeftoverFrom(s, g, 0))
  }

  /** The secret letters still present in a list where used ones are replaced by None. */
  function Present(sc: seq<Option<char>>): multiset<char> {
    if sc == [] then multiset{}
    else (if sc[0].Some? then multiset{sc[0].value} else multiset{}) + Present(sc[1..])
  }

  lemma {:induction false} PresentIn(sc: seq<Option<char>>, c: char)
    ensures Some(c) in sc <==> c in Present(sc)
  {
    if sc != [] {
      PresentIn(sc[1..], c);
      assert Some(c) in sc <==> sc[0] == Some(c) || Some(c) in sc[1..];
    }
  }

  lemma {:induction false} PresentClear(sc: seq<Option<char>>, k: nat, c: char)
    requires k < |sc| && sc[k] == Some(c)
    ensures Present(sc[k := None]) == Present(sc) - multiset{c}
  {
    if k > 0 {
      PresentClear(sc[1..], k - 1, c);
      PresentIn(sc[1..], c);
      assert sc[k := None][1..] == sc[1..][k - 1 := None];
    } else {
      assert sc[k := None][1..] == sc[1..];
    }
  }

  /** After the first pass the list of unused secret letters holds exactly the leftover pool. */
  lemma {:induction false} PresentLeftover(s: string, g: string, sc: seq<Option<char>>, j: nat)
    requires |g| <= |s| && |sc| == |s| && j <= |s|
    requires forall k :: 0 <= k < |s| ==> sc[k] == (if k < |g| && g[k] == s[k] then None else Some(s[k]))
    ensures Present(sc[j..]) == LeftoverFrom(s, g, j)
    decreases |s| - j
  {
    if j < |s| {
      PresentLeftover(s, g, sc, j + 1);
      assert sc[j..][1..] == sc[j + 1..];
    }
  }

  /** The marks of a fully filled row. */
  function Unwrap(ms: seq<Option<Mark>>): (r: seq<Mark>)
    requires forall k :: 0 <= k < |ms| ==> ms[k].Some?
    ensures |r| == |ms| && forall k :: 0 <= k < |ms| ==> r[k] == ms[k].value
  {
    seq(|ms|, k requires 0 <= k < |ms| => ms[k].value)
  }

  /**
    The first pass of `make_feedback`: every in-place match marked green and its secret
    letter struck out (replaced by None) in the list of secret letters.
  */
  method GreenPass(secret: string, guess: string) returns (marks: seq<Option<Mark>>, secretChars: seq<Option<char>>)
    requires |guess| <= |secret|
    ensures |marks| == |guess| && |secretChars| == |secret|
    ensures forall k :: 0 <= k < |guess| ==> marks[k] == (if guess[k] == secret[k] then Some(Green) else None)
    ensures forall j :: 0 <= j < |secret| ==>
      secretChars[j] == (if j < |guess| && guess[j] == secret[j] then None else Some(secret[j]))
  {
    marks := seq(|guess|, _ => None);
    secretChars := seq(|secret|, j requires 0 <= j < |secret| => Some(secret[j]));
    for i := 0 to |guess|
      invariant |marks| == |guess| && |secretChars| == |secret|
      invariant forall k :: 0 <= k < |guess| ==>
        marks[k] == (if k < i && guess[k] == secret[k] then Some(Green) else None)
      invariant forall j :: 0 <= j < |secret| ==>
        secretChars[j] == (if j < i && j < |guess| && guess[j] == secret[j] then None else Some(secret[j]))
    {
      if secret[i] == guess[i] {
        marks := marks[i := Some(Green)];
        secretChars := secretChars[i := None];
      }
    }
  }

  /**
    The second pass of `make_feedback`: each unmarked position turns yellow when its letter
    is still among the unused secret letters (striking out the first such occurrence), and
    white otherwise.
  */
  method YellowPass(secret: string, guess: string, marks0: seq<Option<Mark>>, secretChars0: seq<Option<char>>)
    returns (fb: seq<Mark>)
    requires |guess| <= |secret| && |marks0| == |guess| && |secretChars0| == |secret|
    requires forall k :: 0 <= k < |guess| ==> marks0[k] == (if guess[k] == secret[k] then Some(Green) else None)
    requires forall j :: 0 <= j < |secret| ==>
      secretChars0[j] == (if j < |guess| && guess[j] == secret[j] then None else Some(secret[j]))
    ensures fb == Feedback(secret, guess)
  {
    var marks, secretChars := marks0, secretChars0;
    ghost var row := Feedback(secret, guess);
    PresentLeftover(secret, guess, secretChars, 0);
    assert secretChars[0..] == secretChars;
    for i := 0 to |guess|
      invariant |marks| == |guess| && |secretChars| == |secret| && |row| == |guess|
      invariant forall k :: i <= k < |guess| ==> marks[k] == (if guess[k] == secret[k] then Some(Green) else None)
      invariant forall k :: 0 <= k < i ==> marks[k] == Some(row[k])
      invariant Colour(secret, guess, i, Present(secretChars)) == row[i..]
    {
      ghost var m;
      marks, secretChars, m := YellowStep(secret, guess, i, marks, secretChars);
      SliceCons(row, i, m, Colour(secret, guess, i + 1, Present(secretChars)));
    }
    fb := Unwrap(marks);
    forall k | 0 <= k < |fb| ensures fb[k] == row[k] {
    }
  }

  /** A suffix that starts with `m` followed by `rest` puts `m` at its first position. */
  lemma SliceCons<T>(s: seq<T>, i: nat, m: T, rest: seq<T>)
    requires i < |s| && s[i..] == [m] + rest
    ensures s[i] == m && s[i + 1..] == rest
  {
    assert s[i..][0] == m;
    assert s[i + 1..] == s[i..][1..];
  }

  /**
    One position of the second pass: the mark `m` it writes at `i` is the head of the
    remaining row, and the unused letters left behind give the rest of it.
  */
  method YellowStep(secret: string, guess: string, i: nat, marks: seq<Option<Mark>>, secretChars: seq<Option<char>>)
    returns (marks': seq<Option<Mark>>, secretChars': seq<Option<char>>, ghost m: Mark)
    requires |guess| <= |secret| && i < |guess| && |marks| == |guess| && |secretChars| == |secret|
    requires marks[i] == (if guess[i] == secret[i] then Some(Green) else None)
    ensures |secretChars'| == |secret| && marks' == marks[i := Some(m)]
    ensures Colour(secret, guess, i, Present(secretChars)) == [m] + Colour(secret, guess, i + 1, Present(secretChars'))
  {
    marks', secretChars', m := marks, secretChars, Green;
    if marks[i] == None {
      PresentIn(secretChars, guess[i]);
      if Some(guess[i]) in secretChars {
        marks' := marks[i := Some(Yellow)];
        var k := IndexOf(secretChars, Some(guess[i]));
        PresentClear(secretChars, k, guess[i]);
        secretChars' := secretChars[k := None];
        m := Yellow;
      } else {
        marks' := marks[i := Some(White)];
        m := White;
      }
    }
  }

  /** `make_feedback`: the two passes over the row `fb` and the list `secret_chars`. */
  method MakeFeedback(secret: string, guess: string) returns (fb: seq<Mark>)
    requires |guess| <= |secret|
    ensures fb == Feedback(secret, guess)
  {
    var marks, secretChars := GreenPass(secret, guess);
    fb := YellowPass(secret, guess, marks, secretChars);
  }

  // Properties of the feedback row

  lemma {:induction false} ColourGreen(s: string, g: string, i: nat, pool: multiset<char>, k: nat)
    requires |g| <= |s| && i <= k < |g|
    ensures Colour(s, g, i, pool)[k - i] == Green <==> g[k] == s[k]
    decreases |g| - i
  {
    if k > i {
      var p := if g[i] == s[i] || g[i] !in pool then pool else pool - multiset{g[i]};
      ColourGreen(s, g, i + 1, p, k);
    }
  }

  /** The row has one mark per guess letter, and position i is green iff it matches in place. */
  lemma FeedbackGreen(s: string, g: string)
    requires |g| <= |s|
    ensures |Feedback(s, g)| == |g|
    ensures forall i :: 0 <= i < |g| ==> (Feedback(s, g)[i] == Green <==> g[i] == s[i])
  {
    forall i | 0 <= i < |g| ensures Feedback(s, g)[i] == Green <==> g[i] == s[i] {
      ColourGreen(s, g, 0, LeftoverFrom(s, g, 0), i);
    }
  }

  /** Guessing the secret itself gives an all-green row. */
  lemma FeedbackOfSecret(s: string)
    ensures Feedback(s, s) == seq(|s|, _ => Green)
  {
    FeedbackGreen(s, s);
  }

  /** In-place matches on letter c at positions `i..` of the secret. */
  function GreensFrom(s: string, g: string, c: char, i: nat): nat
    requires |g| <= |s| && i <= |s|
    decreases |s| - i
  {
    if i == |s| then 0
    else (if i < |g| && g[i] == s[i] && s[i] == c then 1 else 0) + GreensFrom(s, g, c, i + 1)
  }

  /** Guess positions `i..` holding c that do not match in place. */
  function OpenFrom(s: string, g: string, c: char, i: nat): nat
    requires |g| <= |s| && i <= |g|
    decreases |g| - i
  {
    if i == |g| then 0
    else (if g[i] == c && g[i] != s[i] then 1 else 0) + OpenFrom(s, g, c, i + 1)
  }

  /** Guess positions `i..` holding c that the row credits (green or yellow). */
  function CreditedFrom(g: string, fb: seq<Mark>, c: char, i: nat): nat
    requires i <= |g| && |fb| == |g| - i
    decreases |g| - i
  {
    if i == |g| then 0
    else (if g[i] == c && fb[0] != White then 1 else 0) + CreditedFrom(g, fb[1..], c, i + 1)
  }

  /** Number of positions holding c that the row marks green or yellow. */
  function Credited(g: string, fb: seq<Mark>, c: char): nat
    requires |fb| == |g|
  {
    CreditedFrom(g, fb, c, 0)
  }

  function Min(a: int, b: int): int {
    if a <= b then a else b
  }

  lemma {:induction false} GreensPastGuess(s: string, g: string, c: char, i: nat)
    requires |g| <= i <= |s|
    ensures GreensFrom(s, g, c, i) == 0
    decreases |s| - i
  {
    if i < |s| {
      GreensPastGuess(s, g, c, i + 1);
    }
  }

  /** The second pass credits as many open positions on c as the pool still holds. */
  lemma {:induction false} ColourCredits(s: string, g: string, c: char, i: nat, pool: multiset<char>)
    requires |g| <= |s| && i <= |g|
    ensures CreditedFrom(g, Colour(s, g, i, pool), c, i)
      == GreensFrom(s, g, c, i) + Min(OpenFrom(s, g, c, i), pool[c])
    decreases |g| - i
  {
    if i == |g| {
      GreensPastGuess(s, g, c, i);
    } else {
      var fb := Colour(s, g, i, pool);
      if g[i] == s[i] {
        ColourCredits(s, g, c, i + 1, pool);
        assert fb[1..] == Colour(s, g, i + 1, pool);
      } else if g[i] in pool {
        var p := pool - multiset{g[i]};
        ColourCredits(s, g, c, i + 1, p);
        assert fb[1..] == Colour(s, g, i + 1, p);
        assert p[c] == if g[i] == c then pool[c] - 1 else pool[c];
      } else {
        ColourCredits(s, g, c, i + 1, pool);
        assert fb[1..] == Colour(s, g, i + 1, pool);
      }
    }
  }

  lemma {:induction false} LeftoverCount(s: string, g: string, c: char, j: nat)
    requires |g| <= |s| && j <= |s|
    ensures LeftoverFrom(s, g, j)[c] + GreensFrom(s, g, c, j) == multiset(s[j..])[c]
    decreases |s| - j
  {
    if j < |s| {
      LeftoverCount(s, g, c, j + 1);
      assert s[j..] == [s[j]] + s[j + 1..];
    }
  }

  lemma {:induction false} GuessCount(s: string, g: string, c: char, i: nat)
    requires |g| <= |s| && i <= |g|
    ensures multiset(g[i..])[c] == GreensFrom(s, g, c, i) + OpenFrom(s, g, c, i)
    decreases |g| - i
  {
    if i == |g| {
      GreensPastGuess(s, g, c, i);
    } else {
      GuessCount(s, g, c, i + 1);
      assert g[i..] == [g[i]] + g[i + 1..];
    }
  }

  /**
    The count-limited-by-duplicates rule: for every letter c the row credits exactly
    min(occurrences of c in the guess, occurrences of c in the secret) positions.
  */
  lemma FeedbackCredits(s: string, g: string, c: char)
    requires |g| <= |s|
    ensures |Feedback(s, g)| == |g|
    ensures Credited(g, Feedback(s, g), c) == Min(multiset(g)[c], multiset(s)[c])
  {
    ColourCredits(s, g, c, 0, LeftoverFrom(s, g, 0));
    LeftoverCount(s, g, c, 0);
    GuessCount(s, g, c, 0);
    assert s[0..] == s && g[0..] == g;
  }

  lemma {:induction false} ColourAbsent(s: string, g: string, c: char, i: nat, pool: multiset<char>, k: nat)
    requires |g| <= |s| && i <= k < |g| && c !in s && c !in pool && g[k] == c
    ensures Colour(s, g, i, pool)[k - i] == White
    decreases |g| - i
  {
    if k > i {
      var p := if g[i] == s[i] || g[i] !in pool then pool else pool - multiset{g[i]};
      ColourAbsent(s, g, c, i + 1, p, k);
    }
  }

  /** A guess letter that the secret does not contain is always white. */
  lemma FeedbackAbsent(s: string, g: string, c: char)
    requires |g| <= |s| && c !in s
    ensures |Feedback(s, g)| == |g|
    ensures forall i :: 0 <= i < |g| && g[i] == c ==> Feedback(s, g)[i] == White
  {
    LeftoverCount(s, g, c, 0);
    assert s[0..] == s;
    assert multiset(s)[c] == 0;
    forall i | 0 <= i < |g| && g[i] == c ensures Feedback(s, g)[i] == White {
      ColourAbsent(s, g, c, 0, LeftoverFrom(s, g, 0), i);
    }
  }

  /** The worked example: secret "lemon", guess "melon". */
  lemma FeedbackLemonMelon()
    ensures Feedback("lemon", "melon") == [Yellow, Green, Yellow, Green, Green]
  {
    LemonMelonPool();
    LemonMelonColours();
  }

  /** The pool of `"lemon"` against `"melon"`: the `l` and `m` not matched in place. */
  lemma LemonMelonPool()
    ensures LeftoverFrom("lemon", "melon", 0) == multiset{'l', 'm'}
  {
    var s, g := "lemon", "melon";
    assert |s| == 5 && s[2] == 'm' && g[2] == 'l' && s[0] == 'l' && g[0] == 'm';
    assert s[1] == g[1] && s[3] == g[3] && s[4] == g[4];
    assert LeftoverFrom(s, g, 3) == multiset{};
    assert LeftoverFrom(s, g, 1) == multiset{'m'};
  }

  /** The second pass over `"melon"`: the `m` then the `l` take the two pool letters. */
  lemma LemonMelonColours()
    ensures Colour("lemon", "melon", 0, multiset{'l', 'm'}) == [Yellow, Green, Yellow, Green, Green]
  {
    var s, g := "lemon", "melon";
    assert Colour(s, g, 3, multiset{}) == [Green, Green];
    assert multiset{'l'} - multiset{'l'} == multiset{};
    assert Colour(s, g, 2, multiset{'l'}) == [Yellow, Green, Green];
    assert multiset{'l', 'm'} - multiset{'m'} == multiset{'l'};
  }

  // ---------------------------------------------------------------------------------------
  // Keyboard status over a guess history

  /** The per-letter keyboard colour ("green", "yellow", "red"). */
  datatype KeyStatus = KeyGreen | KeyYellow | KeyRed

  function Rank(k: KeyStatus): nat {
    match k
    case KeyGreen => 2
    case KeyYellow => 1
    case KeyRed => 0
  }

  function RankOfMark(m: Mark): nat {
    match m
    case Green => 2
    case Yellow => 1
    case White => 0
  }

  /** The status update for one letter of one row. */
  function Step(status: map<char, KeyStatus>, ch: char, sym: Mark): map<char, KeyStatus> {
    if sym == Green then status[ch := KeyGreen]
    else if sym == Yellow && (ch !in status || status[ch] != KeyGreen) then status[ch := KeyYellow]
    else if sym == White && (ch !in status || status[ch] == KeyRed) then status[ch := KeyRed]
    else status
  }

  /** The status after the first `n` letters of one row. */
  function Absorb(status: map<char, KeyStatus>, g: string, fb: seq<Mark>, n: nat): map<char, KeyStatus>
    requires |fb| == |g| && n <= |g|
  {
    if n == 0 then status else Step(Absorb(status, g, fb, n - 1), g[n - 1], fb[n - 1])
  }

  predicate FitsSecret(secret: string, guesses: seq<string>) {
    forall j :: 0 <= j < |guesses| ==> |guesses[j]| <= |secret|
  }

  /** `compute_letter_status(secret, guesses)`. */
  function LetterStatus(secret: string, guesses: seq<string>): map<char, KeyStatus>
    requires FitsSecret(secret, guesses)
  {
    if guesses == [] then map[]
    else
      var g := guesses[|guesses| - 1];
      FeedbackGreen(secret, g);
      Absorb(LetterStatus(secret, guesses[..|guesses| - 1]), g, Feedback(secret, g), |g|)
  }

  /** `compute_letter_status`: the per-guess row built in place, then folded into `status`. */
  method ComputeLetterStatus(secret: string, guesses: seq<string>) returns (status: map<char, KeyStatus>)
    requires FitsSecret(secret, guesses)
    ensures status == LetterStatus(secret, guesses)
  {
    status := map[];
    for n := 0 to |guesses|
      invariant status == LetterStatus(secret, guesses[..n])
    {
      var guess := guesses[n];
      // the same two passes as make_feedback
      var marks, sChars := GreenPass(secret, guess);
      var row := YellowPass(secret, guess, marks, sChars);
      // fold the row into the global status
      ghost var start := status;
      for i := 0 to |guess|
        invariant status == Absorb(start, guess, row, i)
      {
        var ch, sym := guess[i], row[i];
        if sym == Green {
          status := status[ch := KeyGreen];
        } else if sym == Yellow && (ch !in status || status[ch] != KeyGreen) {
          status := status[ch := KeyYellow];
        } else if sym == White && (ch !in status || status[ch] == KeyRed) {
          status := status[ch := KeyRed];
        }
      }
      assert guesses[..n + 1][..n] == guesses[..n];
    }
    assert guesses[..|guesses|] == guesses;
  }

  // Properties of the keyboard status

  lemma {:induction false} AbsorbKeys(status: map<char, KeyStatus>, g: string, fb: seq<Mark>, n: nat)
    requires |fb| == |g| && n <= |g|
    ensures Absorb(status, g, fb, n).Keys == status.Keys + Elems(g[..n])
  {
    if n > 0 {
      AbsorbKeys(status, g, fb, n - 1);
      assert g[..n] == g[..n - 1] + [g[n - 1]];
    }
  }

  /** Letters that occur in some guess. */
  function Letters(guesses: seq<string>): set<char> {
    if guesses == [] then {} else Letters(guesses[..|guesses| - 1]) + Elems(guesses[|guesses| - 1])
  }

  /** The status has a key for exactly the letters that were guessed. */
  lemma {:induction false} LetterStatusKeys(secret: string, guesses: seq<string>)
    requires FitsSecret(secret, guesses)
    ensures LetterStatus(secret, guesses).Keys == Letters(guesses)
  {
    if guesses != [] {
      var g := guesses[|guesses| - 1];
      LetterStatusKeys(secret, guesses[..|guesses| - 1]);
      FeedbackGreen(secret, g);
      AbsorbKeys(LetterStatus(secret, guesses[..|guesses| - 1]), g, Feedback(secret, g), |g|);
      assert g[..|g|] == g;
    }
  }

  /** One update never lowers the status of a letter already on the keyboard. */
  lemma StepMonotone(status: map<char, KeyStatus>, ch: char, sym: Mark)
    ensures forall c :: c in status ==> c in Step(status, ch, sym) && Rank(Step(status, ch, sym)[c]) >= Rank(status[c])
  {
  }

  lemma {:induction false} AbsorbMonotone(status: map<char, KeyStatus>, g: string, fb: seq<Mark>, n: nat)
    requires |fb| == |g| && n <= |g|
    ensures forall c :: c in status ==> c in Absorb(status, g, fb, n) && Rank(Absorb(status, g, fb, n)[c]) >= Rank(status[c])
  {
    if n > 0 {
      AbsorbMonotone(status, g, fb, n - 1);
      StepMonotone(Absorb(status, g, fb, n - 1), g[n - 1], fb[n - 1]);
    }
  }

  /**
    Appending a guess never lowers a letter's status: green stays green, and yellow never
    falls back to red.
  */
  lemma LetterStatusMonotone(secret: string, guesses: seq<string>, g: string)
    requires FitsSecret(secret, guesses) && |g| <= |secret|
    ensures FitsSecret(secret, guesses + [g])
    ensures forall c :: c in LetterStatus(secret, guesses) ==>
      c in LetterStatus(secret, guesses + [g]) &&
      Rank(LetterStatus(secret, guesses + [g])[c]) >= Rank(LetterStatus(secret, guesses)[c])
  {
    var gs := guesses + [g];
    assert gs[..|gs| - 1] == guesses;
    FeedbackGreen(secret, g);
    AbsorbMonotone(LetterStatus(secret, guesses), g, Feedback(secret, g), |g|);
  }

  lemma {:induction false} AbsorbGreen(status: map<char, KeyStatus>, g: string, fb: seq<Mark>, n: nat, c: char)
    requires |fb| == |g| && n <= |g|
    ensures (c in Absorb(status, g, fb, n) && Absorb(status, g, fb, n)[c] == KeyGreen) <==>
      (c in status && status[c] == KeyGreen) || exists i :: 0 <= i < n && g[i] == c && fb[i] == Green
  {
    if n > 0 {
      AbsorbGreen(status, g, fb, n - 1, c);
    }
  }

  /** Some guess has `c` at a position where the secret has it too. */
  ghost predicate InPlace(secret: string, guesses: seq<string>, c: char) {
    exists j, i :: 0 <= j < |guesses| && 0 <= i < |guesses[j]| && i < |secret| && guesses[j][i] == c && secret[i] == c
  }

  /** A letter is green on the keyboard iff some guess has it where the secret has it. */
  lemma {:induction false} LetterStatusGreen(secret: string, guesses: seq<string>, c: char)
    requires FitsSecret(secret, guesses)
    ensures (c in LetterStatus(secret, guesses) && LetterStatus(secret, guesses)[c] == KeyGreen) <==>
      InPlace(secret, guesses, c)
  {
    if guesses != [] {
      var init := guesses[..|guesses| - 1];
      var g := guesses[|guesses| - 1];
      LetterStatusGreen(secret, init, c);
      FeedbackGreen(secret, g);
      AbsorbGreen(LetterStatus(secret, init), g, Feedback(secret, g), |g|, c);
      InPlaceSnoc(secret, guesses, c);
    }
  }

  /** `c` is in place in a history iff it is in place in its earlier guesses or its last one. */
  lemma InPlaceSnoc(secret: string, guesses: seq<string>, c: char)
    requires FitsSecret(secret, guesses) && guesses != []
    ensures var g := guesses[|guesses| - 1];
      InPlace(secret, guesses, c) <==>
      InPlace(secret, guesses[..|guesses| - 1], c) || exists i :: 0 <= i < |g| && g[i] == c && Feedback(secret, g)[i] == Green
  {
    var init := guesses[..|guesses| - 1];
    var g := guesses[|guesses| - 1];
    FeedbackGreen(secret, g);
    if InPlace(secret, guesses, c) {
      var j, i :| 0 <= j < |guesses| && 0 <= i < |guesses[j]| && i < |secret| && guesses[j][i] == c && secret[i] == c;
      if j < |init| {
        assert init[j][i] == c;
      } else {
        assert Feedback(secret, g)[i] == Green;
      }
    }
    if InPlace(secret, init, c) {
      var j, i :| 0 <= j < |init| && 0 <= i < |init[j]| && i < |secret| && init[j][i] == c && secret[i] == c;
      assert guesses[j][i] == c;
    }
    if exists i :: 0 <= i < |g| && g[i] == c && Feedback(secret, g)[i] == Green {
      var i :| 0 <= i < |g| && g[i] == c && Feedback(secret, g)[i] == Green;
      assert guesses[|guesses| - 1][i] == c;
    }
  }
}
