/**
 * `snake_to_camel` from utils.py: split an identifier on '_', title-case every
 * component with the semantics of Python's `str.title`, and concatenate them.
 * This is what turns the portal identifier `click_pay` into the class name `ClickPay`.
 *
 * Letters are the ASCII letters; every other character is uncased.
 */
module Utils {

  const Underscore: char := '_'

  predicate IsUpper(c: char) { 'A' <= c <= 'Z' }
  predicate IsLower(c: char) { 'a' <= c <= 'z' }
  predicate IsCased(c: char) { IsUpper(c) || IsLower(c) }

  function ToUpper(c: char): (u: char)
    ensures IsCased(c) ==> IsUpper(u)
    ensures !IsCased(c) ==> u == c
  {
    if IsLower(c) then (c as int - 32) as char else c
  }

  function ToLower(c: char): (l: char)
    ensures IsCased(c) ==> IsLower(l)
    ensures !IsCased(c) ==> l == c
  {
    if IsUpper(c) then (c as int + 32) as char else c
  }

  /** Number of occurrences of `c` in `s`. */
  function Count(s: string, c: char): nat
  {
    if s == [] then 0 else (if s[0] == c then 1 else 0) + Count(s[1..], c)
  }

  /** `sep.join(parts)` */
  function JoinWith(parts: seq<string>, sep: char): string
  {
    if |parts| == 0 then ""
    else if |parts| == 1 then parts[0]
    else parts[0] + [sep] + JoinWith(parts[1..], sep)
  }

  /** `"".join(parts)` */
  function Concat(parts: seq<string>): string
  {
    if parts == [] then "" else parts[0] + Concat(parts[1..])
  }

  /** Sum of the lengths of `parts`. */
  function TotalLength(parts: seq<string>): nat
  {
    if parts == [] then 0 else |parts[0]| + TotalLength(parts[1..])
  }

  /**
   * `s.split(sep)`: the components between separators, empty ones included,
   * so that joining them back with `sep` gives `s` again.
   */
  function Split(s: string, sep: char): (parts: seq<string>)
    ensures |parts| == Count(s, sep) + 1
    ensures forall i :: 0 <= i < |parts| ==> sep !in parts[i]
    ensures JoinWith(parts, sep) == s
  {
    if s == [] then [""]
    else
      var rest := Split(s[1..], sep);
      if s[0] == sep then
        assert s == [sep] + s[1..];
        [""] + rest
      else
        var parts := [[s[0]] + rest[0]] + rest[1..];
        JoinWithExtendFirst(s[0], rest, sep);
        assert s == [s[0]] + s[1..];
        parts
  }

  /** Prefixing the first part with `c` prefixes the join with `c`. */
  lemma JoinWithExtendFirst(c: char, parts: seq<string>, sep: char)
    requires |parts| >= 1
    ensures JoinWith([[c] + parts[0]] + parts[1..], sep) == [c] + JoinWith(parts, sep)
  {
    var extended := [[c] + parts[0]] + parts[1..];
    assert extended[0] == [c] + parts[0];
    assert extended[1..] == parts[1..];
    if |parts| > 1 {
      assert JoinWith(extended, sep) == [c] + parts[0] + [sep] + JoinWith(parts[1..], sep);
    }
  }

  /** The character `str.title` puts at position `i` of `x`. */
  function TitleCharAt(x: string, i: nat): char
    requires i < |x|
  {
    if !IsCased(x[i]) then x[i]
    else if i > 0 && IsCased(x[i - 1]) then ToLower(x[i])
    else ToUpper(x[i])
  }

  /**
   * `str.title` as Python computes it: one pass that remembers whether the
   * previous character was cased.
   */
  function TitleFrom(x: string, previousIsCased: bool): (r: string)
    ensures |r| == |x|
  {
    if x == [] then []
    else
      var c := x[0];
      var t := if !IsCased(c) then c else if previousIsCased then ToLower(c) else ToUpper(c);
      [t] + TitleFrom(x[1..], IsCased(c))
  }

  function Title(x: string): string
  {
    TitleFrom(x, false)
  }

  function TitleEach(parts: seq<string>): (r: seq<string>)
    ensures |r| == |parts|
  {
    if parts == [] then [] else [Title(parts[0])] + TitleEach(parts[1..])
  }

  /** `"".join(x.title() for x in snake_str.split("_"))` */
  function SnakeToCamel(snake: string): string
  {
    Concat(TitleEach(Split(snake, Underscore)))
  }

  // ---------------------------------------------------------------------------
  // str.title

  lemma {:induction false} TitleFromAt(x: string, previousIsCased: bool, i: nat)
    requires i < |x|
    ensures TitleFrom(x, previousIsCased)[i] ==
      if !IsCased(x[i]) then x[i]
      else if (if i == 0 then previousIsCased else IsCased(x[i - 1])) then ToLower(x[i])
      else ToUpper(x[i])
  {
    if i > 0 {
      TitleFromAt(x[1..], IsCased(x[0]), i - 1);
    }
  }

  /** Each character of `Title(x)` is the one the reference rule `TitleCharAt` gives. */
  lemma TitleAt(x: string, i: nat)
    requires i < |x|
    ensures |Title(x)| == |x|
    ensures Title(x)[i] == TitleCharAt(x, i)
  {
    TitleFromAt(x, false, i);
  }

  /** Title-casing changes letters only: an uncased character keeps its place. */
  lemma TitleKeepsUncased(x: string, i: nat)
    requires i < |x|
    ensures IsCased(Title(x)[i]) == IsCased(x[i])
    ensures !IsCased(x[i]) ==> Title(x)[i] == x[i]
  {
    TitleAt(x, i);
  }

  lemma TitleNoUnderscore(x: string)
    requires Underscore !in x
    ensures Underscore !in Title(x)
  {
    forall i | 0 <= i < |Title(x)|
      ensures Title(x)[i] != Underscore
    {
      TitleKeepsUncased(x, i);
    }
  }

  // ---------------------------------------------------------------------------
  // join and concatenation

  lemma {:induction false} JoinWithLength(parts: seq<string>, sep: char)
    requires |parts| >= 1
    ensures |JoinWith(parts, sep)| == TotalLength(parts) + |parts| - 1
  {
    if |parts| > 1 {
      JoinWithLength(parts[1..], sep);
    }
  }

  lemma {:induction false} ConcatLength(parts: seq<string>)
    ensures |Concat(parts)| == TotalLength(parts)
  {
    if parts != [] {
      ConcatLength(parts[1..]);
    }
  }

  lemma {:induction false} TitleEachLength(parts: seq<string>)
    ensures TotalLength(TitleEach(parts)) == TotalLength(parts)
  {
    if parts != [] {
      TitleEachLength(parts[1..]);
    }
  }

  lemma {:induction false} TitleEachAt(parts: seq<string>, i: nat)
    requires i < |parts|
    ensures TitleEach(parts)[i] == Title(parts[i])
  {
    if i > 0 {
      TitleEachAt(parts[1..], i - 1);
    }
  }

  lemma {:induction false} ConcatExcludes(parts: seq<string>, c: char)
    requires forall i :: 0 <= i < |parts| ==> c !in parts[i]
    ensures c !in Concat(parts)
  {
    if parts != [] {
      ConcatExcludes(parts[1..], c);
    }
  }

  /**
   * Python's `split` is the only way to cut a string into separator-free
   * components: any non-empty list of separator-free strings whose join is `s`
   * is `s.split(sep)`.
   */
  lemma {:induction false} SplitUnique(parts: seq<string>, sep: char)
    requires |parts| >= 1
    requires forall i :: 0 <= i < |parts| ==> sep !in parts[i]
    ensures Split(JoinWith(parts, sep), sep) == parts
  {
    if |parts| == 1 {
      SplitOfSeparatorFree(parts[0], sep);
    } else {
      var tail := JoinWith(parts[1..], sep);
      SplitUnique(parts[1..], sep);
      SplitPrefix(parts[0], tail, sep);
      assert [parts[0]] + parts[1..] == parts;
    }
  }

  lemma {:induction false} SplitOfSeparatorFree(w: string, sep: char)
    requires sep !in w
    ensures Split(w, sep) == [w]
  {
    if w != [] {
      SplitOfSeparatorFree(w[1..], sep);
      assert [w[0]] + w[1..] == w;
    }
  }

  /** Splitting `w + [sep] + t`, with `w` separator-free, yields `w` followed by the split of `t`. */
  lemma {:induction false} SplitPrefix(w: string, t: string, sep: char)
    requires sep !in w
    ensures Split(w + [sep] + t, sep) == [w] + Split(t, sep)
  {
    if w == [] {
      assert w + [sep] + t == [sep] + t;
      assert ([sep] + t)[1..] == t;
    } else {
      var s := w + [sep] + t;
      assert s[1..] == w[1..] + [sep] + t;
      SplitPrefix(w[1..], t, sep);
      assert [w[0]] + w[1..] == w;
    }
  }

  // ---------------------------------------------------------------------------
  // snake_to_camel

  /** No underscore survives: every one of them is consumed by the split. */
  lemma SnakeToCamelHasNoUnderscore(snake: string)
    ensures Underscore !in SnakeToCamel(snake)
  {
    var parts := Split(snake, Underscore);
    var titled := TitleEach(parts);
    forall i | 0 <= i < |titled|
      ensures Underscore !in titled[i]
    {
      TitleEachAt(parts, i);
      TitleNoUnderscore(parts[i]);
    }
    ConcatExcludes(titled, Underscore);
  }

  /** The result is as long as the input minus its underscores. */
  lemma SnakeToCamelLength(snake: string)
    ensures |SnakeToCamel(snake)| == |snake| - Count(snake, Underscore)
  {
    var parts := Split(snake, Underscore);
    JoinWithLength(parts, Underscore);
    TitleEachLength(parts);
    ConcatLength(TitleEach(parts));
  }

  /**
   * The identifier built from separator-free words joined with '_' maps to
   * the concatenation of the title-cased words.
   */
  lemma SnakeToCamelOfWords(words: seq<string>)
    requires |words| >= 1
    requires forall i :: 0 <= i < |words| ==> Underscore !in words[i]
    ensures SnakeToCamel(JoinWith(words, Underscore)) == Concat(TitleEach(words))
  {
    SplitUnique(words, Underscore);
  }

  lemma {:induction false} TitleFromLowerRun(w: string)
    requires forall i :: 0 <= i < |w| ==> IsLower(w[i])
    ensures TitleFrom(w, true) == w
  {
    if w != [] {
      TitleFromLowerRun(w[1..]);
      assert [w[0]] + w[1..] == w;
    }
  }

  /** A lower-case word is title-cased by capitalising its first letter. */
  lemma TitleLowerWord(w: string)
    requires |w| >= 1
    requires forall i :: 0 <= i < |w| ==> IsLower(w[i])
    ensures Title(w) == [ToUpper(w[0])] + w[1..]
  {
    TitleFromLowerRun(w[1..]);
  }

  lemma {:induction false} TitleFromAppend(a: string, b: string, previousIsCased: bool)
    ensures TitleFrom(a + b, previousIsCased) ==
      TitleFrom(a, previousIsCased) + TitleFrom(b, if a == [] then previousIsCased else IsCased(a[|a| - 1]))
  {
    if a != [] {
      assert (a + b)[0] == a[0];
      assert (a + b)[1..] == a[1..] + b;
      assert a[1..] != [] ==> a[1..][|a[1..]| - 1] == a[|a| - 1];
      TitleFromAppend(a[1..], b, IsCased(a[0]));
      var c := a[0];
      var t := if !IsCased(c) then c else if previousIsCased then ToLower(c) else ToUpper(c);
      assert TitleFrom(a + b, previousIsCased) == [t] + TitleFrom(a[1..] + b, IsCased(c));
      assert TitleFrom(a, previousIsCased) == [t] + TitleFrom(a[1..], IsCased(c));
      assert (if a[1..] == [] then IsCased(c) else IsCased(a[1..][|a[1..]| - 1])) == IsCased(a[|a| - 1]);
    } else {
      assert a + b == b;
    }
  }

  lemma ConcatPair(a: string, b: string)
    ensures Concat([a, b]) == a + b
  {
    assert [a, b][1..] == [b];
    assert Concat([b]) == b + Concat([]);
  }

  lemma TitleEachPair(a: string, b: string)
    ensures TitleEach([a, b]) == [Title(a), Title(b)]
  {
    assert [a, b][1..] == [b];
    assert TitleEach([b]) == [Title(b)] + TitleEach([]);
  }

  lemma TitleClick()
    ensures Title("click") == "Click"
  {
    TitleLowerWord("click");
    assert "click"[1..] == "lick";
  }

  lemma TitlePay()
    ensures Title("pay") == "Pay"
  {
    TitleLowerWord("pay");
    assert "pay"[1..] == "ay";
  }

  /** An identifier of two words maps to the two title-cased words, concatenated. */
  lemma SnakeToCamelPair(snake: string, a: string, b: string)
    requires snake == a + [Underscore] + b
    requires Underscore !in a && Underscore !in b
    ensures SnakeToCamel(snake) == Title(a) + Title(b)
  {
    var words := [a, b];
    assert words[1..] == [b];
    assert JoinWith(words, Underscore) == snake;
    SnakeToCamelOfWords(words);
    TitleEachPair(a, b);
    ConcatPair(Title(a), Title(b));
  }

  lemma SnakeToCamelClickPay()
    ensures SnakeToCamel("click_pay") == "ClickPay"
  {
    SnakeToCamelClickPayFrom("click_pay");
  }

  lemma SnakeToCamelClickPayFrom(snake: string)
    requires snake == "click_pay"
    ensures SnakeToCamel(snake) == "ClickPay"
  {
    TitleClick();
    TitlePay();
    SnakeToCamelTitledPair(snake, "click", "pay", "Click", "Pay");
    assert "Click" + "Pay" == "ClickPay";
  }

  lemma SnakeToCamelTitledPair(snake: string, a: string, b: string, ta: string, tb: string)
    requires snake == a + [Underscore] + b
    requires Underscore !in a && Underscore !in b
    requires Title(a) == ta && Title(b) == tb
    ensures SnakeToCamel(snake) == ta + tb
  {
    SnakeToCamelPair(snake, a, b);
  }

  /** The helper module's identifier names a class the module does not define. */
  lemma SnakeToCamelSharedLogic()
    ensures SnakeToCamel("shared_logic") == "SharedLogic"
  {
    SnakeToCamelSharedLogicFrom("shared_logic");
  }

  lemma SnakeToCamelSharedLogicFrom(snake: string)
    requires snake == "shared_logic"
    ensures SnakeToCamel(snake) == "SharedLogic"
  {
    TitleLowerWord("shared");
    assert "shared"[1..] == "hared";
    TitleLowerWord("logic");
    assert "logic"[1..] == "ogic";
    SnakeToCamelTitledPair(snake, "shared", "logic", "Shared", "Logic");
    assert "Shared" + "Logic" == "SharedLogic";
  }

  /** An identifier without underscores is title-cased as one component. */
  lemma SnakeToCamelSingle(snake: string)
    requires Underscore !in snake
    ensures SnakeToCamel(snake) == Title(snake)
  {
    SplitOfSeparatorFree(snake, Underscore);
    assert TitleEach([snake]) == [Title(snake)] + TitleEach([]);
    assert Concat([Title(snake)]) == Title(snake) + Concat([]);
  }

  /** Title-casing across an uncased character: both sides start a new run. */
  lemma TitleAcrossUncased(x: string, a: string, c: char, b: string)
    requires x == a + [c] + b
    requires !IsCased(c)
    ensures Title(x) == Title(a) + [c] + Title(b)
  {
    assert x == a + ([c] + b);
    TitleFromAppend(a, [c] + b, false);
    TitleFromAppend([c], b, if a == [] then false else IsCased(a[|a| - 1]));
    assert ([c] + b)[1..] == b;
  }

  /** A digit is uncased, so the letter after it starts a new title-cased run. */
  lemma SnakeToCamelDigit()
    ensures SnakeToCamel("click2pay") == "Click2Pay"
  {
    SnakeToCamelSingle("click2pay");
    TitleClick2Pay();
  }

  lemma TitleClick2Pay()
    ensures Title("click2pay") == "Click2Pay"
  {
    TitleAcrossUncased("click2pay", "click", '2', "pay");
    TitleClick();
    TitlePay();
  }

  /** Empty components contribute nothing. */
  lemma SnakeToCamelEmptyComponents()
    ensures SnakeToCamel("") == ""
    ensures SnakeToCamel("a__b") == "AB"
  {
    assert Split("", Underscore) == [""];
    assert TitleEach([""]) == [""];
    var words := ["a", "", "b"];
    assert JoinWith(words, Underscore) == "a" + "_" + ("" + "_" + "b") == "a__b";
    SnakeToCamelOfWords(words);
    assert Title("a") == "A";
    assert Title("b") == "B";
    assert words[1..] == ["", "b"];
    TitleEachPair("", "b");
    assert TitleEach(words) == ["A"] + ["", "B"] == ["A", "", "B"];
    ConcatPair("", "B");
    assert Concat(["A", "", "B"]) == "A" + Concat(["", "B"]);
  }
}
