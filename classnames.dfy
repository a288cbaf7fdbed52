/**
 * How MakeCommand turns a command name such as `app:do-something` into the
 * class name `DoSomethingCommand`: every `app:` is removed, each word is
 * capitalised, every `:` and every `-` is removed, and `Command` is appended.
 */
module ClassNames {

  const ClassSuffix: string := "Command"

  /** `s` contains `pat` starting at position `k`. */
  predicate OccursAt(s: string, pat: string, k: int) {
    0 <= k && k + |pat| <= |s| && s[k..k + |pat|] == pat
  }

  /**
   * Replacing every occurrence of a non-empty `pat` with nothing, scanning left to
   * right without overlap (what `str_replace` and the string component's
   * `replace` do). Text that only comes together after a removal is left alone.
   */
  function RemoveAll(s: string, pat: string): (r: string)
    requires pat != []
    ensures |r| <= |s|
    decreases |s|
  {
    if s == [] then []
    else if pat <= s then RemoveAll(s[|pat|..], pat)
    else [s[0]] + RemoveAll(s[1..], pat)
  }

  /** Removal only drops characters: a character absent before is absent after. */
  lemma {:induction false} RemoveAllKeepsAbsent(s: string, pat: string, c: char)
    requires pat != [] && c !in s
    ensures c !in RemoveAll(s, pat)
  {
    if s != [] {
      if pat <= s {
        assert forall i | 0 <= i < |s[|pat|..]| :: s[|pat|..][i] == s[|pat| + i];
        RemoveAllKeepsAbsent(s[|pat|..], pat, c);
      } else {
        assert forall i | 0 <= i < |s[1..]| :: s[1..][i] == s[1 + i];
        RemoveAllKeepsAbsent(s[1..], pat, c);
      }
    }
  }

  /** After removing a one-character pattern, that character is gone. */
  lemma {:induction false} RemoveAllChar(s: string, c: char)
    ensures c !in RemoveAll(s, [c])
  {
    if s != [] {
      if [c] <= s {
        RemoveAllChar(s[1..], c);
        assert s[|[c]|..] == s[1..];
      } else {
        RemoveAllChar(s[1..], c);
        assert s[0] != c;
      }
    }
  }

  /** Removal keeps `s` as it is when `pat` does not occur in it. */
  lemma {:induction false} RemoveAllAbsent(s: string, pat: string)
    requires pat != []
    requires forall k | 0 <= k <= |s| - |pat| :: !OccursAt(s, pat, k)
    ensures RemoveAll(s, pat) == s
  {
    if s != [] {
      assert !(pat <= s) by {
        assert !OccursAt(s, pat, 0);
      }
      forall k | 0 <= k <= |s[1..]| - |pat|
        ensures !OccursAt(s[1..], pat, k)
      {
        assert !OccursAt(s, pat, k + 1);
        assert s[1..][k..k + |pat|] == s[k + 1..k + 1 + |pat|];
      }
      RemoveAllAbsent(s[1..], pat);
    }
  }

  /** A character that may continue a word: ASCII letter, digit or underscore. */
  predicate IsWordChar(c: char) {
    'a' <= c <= 'z' || 'A' <= c <= 'Z' || '0' <= c <= '9' || c == '_'
  }

  /** ASCII upper-casing of one character; other characters are kept. */
  function Upper(c: char): (u: char)
    ensures 'a' <= c <= 'z' ==> 'A' <= u <= 'Z'
    ensures !('a' <= c <= 'z') ==> u == c
  {
    if 'a' <= c <= 'z' then (c as int - 32) as char else c
  }

  /** Title-casing of `s`, given whether the character before it belongs to a word. */
  function TitleFrom(s: string, afterWord: bool): (r: string)
    ensures |r| == |s|
  {
    if s == [] then []
    else [if afterWord then s[0] else Upper(s[0])] + TitleFrom(s[1..], IsWordChar(s[0]))
  }

  /**
   * Word capitalisation of `u(…)->title(true)`, in an ASCII approximation: a
   * character that starts the string or follows a non-word character is upper-cased.
   */
  function TitleCase(s: string): string {
    TitleFrom(s, false)
  }

  /** Position by position: a character is upper-cased exactly when it starts a word. */
  lemma {:induction false} TitleFromAt(s: string, afterWord: bool, i: int)
    requires 0 <= i < |s|
    ensures TitleFrom(s, afterWord)[i]
      == if (if i == 0 then afterWord else IsWordChar(s[i - 1])) then s[i] else Upper(s[i])
  {
    if i > 0 {
      TitleFromAt(s[1..], IsWordChar(s[0]), i - 1);
    }
  }

  /** The class-name stem: lines 77-78 of MakeCommand. */
  function ShortName(name: string): string {
    RemoveAll(RemoveAll(TitleCase(RemoveAll(name, "app:")), ":"), "-")
  }

  /** The generated class name (line 79). */
  function CommandClassName(name: string): (className: string)
    ensures |className| >= |ClassSuffix|
    ensures className[|className| - |ClassSuffix|..] == ClassSuffix
  {
    ShortName(name) + ClassSuffix
  }

  /**
   * Whatever the command name, the class name ends in `Command`, holds no `:` and
   * no `-`, and is at most the suffix's length longer than the name.
   */
  lemma ClassNameShape(name: string)
    ensures ':' !in CommandClassName(name) && '-' !in CommandClassName(name)
    ensures |CommandClassName(name)| <= |name| + |ClassSuffix|
  {
    var titled := TitleCase(RemoveAll(name, "app:"));
    var noColon := RemoveAll(titled, ":");
    RemoveAllChar(titled, ':');
    RemoveAllChar(noColon, '-');
    RemoveAllKeepsAbsent(noColon, "-", ':');
    assert CommandClassName(name) == RemoveAll(noColon, "-") + ClassSuffix;
  }

  /**
   * A name with no `app:`, no `:` and no `-` in it is only title-cased and
   * suffixed.
   */
  lemma PlainNameClassName(name: string)
    requires forall k | 0 <= k <= |name| - 4 :: !OccursAt(name, "app:", k)
    requires ':' !in name && '-' !in name
    ensures CommandClassName(name) == TitleCase(name) + ClassSuffix
  {
    RemoveAllAbsent(name, "app:");
    var t := TitleCase(name);
    forall i | 0 <= i < |t| ensures t[i] != ':' && t[i] != '-' {
      TitleFromAt(name, false, i);
    }
    RemoveAllMissingChar(t, ":", 0);
    RemoveAllMissingChar(t, "-", 0);
  }

  /** Removal leaves a string alone when some character of the pattern is not in it. */
  lemma {:induction false} RemoveAllMissingChar(s: string, pat: string, j: int)
    requires pat != [] && 0 <= j < |pat| && pat[j] !in s
    ensures RemoveAll(s, pat) == s
  {
    if s != [] {
      assert !(pat <= s) by {
        assert j < |s| ==> s[j] != pat[j];
      }
      RemoveAllMissingChar(s[1..], pat, j);
    }
  }

  /** Removing one character distributes over concatenation. */
  lemma {:induction false} RemoveCharAppend(a: string, b: string, c: char)
    ensures RemoveAll(a + b, [c]) == RemoveAll(a, [c]) + RemoveAll(b, [c])
  {
    if a != [] {
      assert (a + b)[1..] == a[1..] + b;
      assert [c] <= a + b <==> [c] <= a;
      RemoveCharAppend(a[1..], b, c);
    } else {
      assert a + b == b;
    }
  }

  /** Title-casing a concatenation: the second part continues after the first. */
  lemma {:induction false} TitleFromAppend(a: string, b: string, afterWord: bool)
    ensures TitleFrom(a + b, afterWord)
      == TitleFrom(a, afterWord) + TitleFrom(b, if a == [] then afterWord else IsWordChar(a[|a| - 1]))
  {
    if a != [] {
      assert (a + b)[1..] == a[1..] + b;
      TitleFromAppend(a[1..], b, IsWordChar(a[0]));
    } else {
      assert a + b == b;
    }
  }

  /** Inside a word nothing is upper-cased. */
  lemma {:induction false} TitleFromInsideWord(s: string)
    requires forall i | 0 <= i < |s| :: IsWordChar(s[i])
    ensures TitleFrom(s, true) == s
  {
    if s != [] {
      TitleFromInsideWord(s[1..]);
    }
  }

  /** A non-empty run of word characters. */
  predicate IsWord(w: string) {
    w != [] && forall i | 0 <= i < |w| :: IsWordChar(w[i])
  }

  /** A word with its first letter upper-cased. */
  function Capitalised(w: string): (c: string)
    requires w != []
    ensures |c| == |w| && c[1..] == w[1..]
  {
    [Upper(w[0])] + w[1..]
  }

  lemma CapitalisedWord(w: string)
    requires IsWord(w)
    ensures TitleCase(w) == Capitalised(w) && IsWord(Capitalised(w))
  {
    assert w == [w[0]] + w[1..];
    TitleFromAppend([w[0]], w[1..], false);
    TitleFromInsideWord(w[1..]);
  }

  /** Removing `app:` from `app:` followed by text without a colon leaves that text. */
  lemma StripAppPrefix(rest: string)
    requires ':' !in rest
    ensures RemoveAll("app:" + rest, "app:") == rest
  {
    var s := "app:" + rest;
    assert "app:" <= s;
    assert s[|"app:"|..] == rest;
    RemoveAllMissingChar(rest, "app:", 3);
  }

  /** `app:<word>` gives the capitalised word followed by `Command`. */
  lemma WordClassName(name: string, w: string)
    requires IsWord(w) && name == "app:" + w
    ensures CommandClassName(name) == Capitalised(w) + ClassSuffix
  {
    StripAppPrefix(w);
    CapitalisedWord(w);
    var c := Capitalised(w);
    RemoveAllMissingChar(c, ":", 0);
    RemoveAllMissingChar(c, "-", 0);
  }

  /** Title-casing two words joined by a hyphen capitalises both. */
  lemma TitleHyphenated(w1: string, w2: string)
    requires IsWord(w1) && IsWord(w2)
    ensures TitleCase(w1 + "-" + w2) == Capitalised(w1) + "-" + Capitalised(w2)
  {
    CapitalisedWord(w1);
    CapitalisedWord(w2);
    assert w1 + "-" + w2 == w1 + ("-" + w2);
    TitleFromAppend(w1, "-" + w2, false);
    TitleFromAppend("-", w2, true);
  }

  /** Removing the hyphen between two words joins them. */
  lemma RemoveHyphen(c1: string, c2: string)
    requires IsWord(c1) && IsWord(c2)
    ensures RemoveAll(c1 + "-" + c2, "-") == c1 + c2
  {
    assert c1 + "-" + c2 == c1 + ("-" + c2);
    RemoveCharAppend(c1, "-" + c2, '-');
    RemoveCharAppend("-", c2, '-');
    RemoveAllMissingChar(c1, "-", 0);
    RemoveAllMissingChar(c2, "-", 0);
    assert "-" <= "-";
    assert RemoveAll("-", "-") == "";
  }

  /** `app:<word>-<word>` gives both words capitalised and joined, then `Command`. */
  lemma HyphenatedClassName(name: string, w1: string, w2: string)
    requires IsWord(w1) && IsWord(w2) && name == "app:" + w1 + "-" + w2
    ensures CommandClassName(name) == Capitalised(w1) + Capitalised(w2) + ClassSuffix
  {
    var rest := w1 + "-" + w2;
    assert name == "app:" + rest;
    assert ':' !in rest by {
      assert forall i | 0 <= i < |rest| :: rest[i] == '-' || IsWordChar(rest[i]);
    }
    StripAppPrefix(rest);
    TitleHyphenated(w1, w2);
    CapitalisedWord(w1);
    CapitalisedWord(w2);
    var titled := Capitalised(w1) + "-" + Capitalised(w2);
    assert ':' !in titled by {
      assert forall i | 0 <= i < |titled| :: titled[i] == '-' || IsWordChar(titled[i]);
    }
    RemoveAllMissingChar(titled, ":", 0);
    RemoveHyphen(Capitalised(w1), Capitalised(w2));
  }

  /** `app:do-something` is two capitalised words and the suffix. */
  lemma DoSomethingWords()
    ensures CommandClassName("app:do-something") == Capitalised("do") + Capitalised("something") + ClassSuffix
  {
    HyphenatedClassName("app:do-something", "do", "something");
  }

  lemma DoSomethingSpelled()
    ensures Capitalised("do") + Capitalised("something") + ClassSuffix == "DoSomethingCommand"
  {
  }

  /** The worked example of the command's own help text. */
  lemma DoSomethingExample()
    ensures CommandClassName("app:do-something") == "DoSomethingCommand"
  {
    DoSomethingWords();
    DoSomethingSpelled();
  }

  /** The second example: `app:foo` gives `FooCommand`. */
  lemma FooExample()
    ensures CommandClassName("app:foo") == "FooCommand"
  {
    WordClassName("app:foo", "foo");
  }
}
