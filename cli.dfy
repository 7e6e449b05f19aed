/**
 * The option-name helpers of index.js: `camelize` turns a long flag such as
 * `output-dir` into the property name `outputDir`, and `cleanArgs` collects
 * the values the command line parser stored under those names into the
 * dictionary that the download code reads.
 */
module Cli {

  /** `\w` of a JavaScript regular expression without the `u` flag. */
  predicate IsWordChar(c: char) {
    'a' <= c <= 'z' || 'A' <= c <= 'Z' || '0' <= c <= '9' || c == '_'
  }

  /** `toUpperCase` on the characters `\w` matches. */
  function ToUpper(c: char): char {
    if 'a' <= c <= 'z' then (c as int - 32) as char else c
  }

  /**
   * `str.replace(/-(\w)/g, (_, c) => c.toUpperCase())`: the string is scanned
   * from the left; a `-` followed by a word character is replaced by that
   * character upper-cased and the scan resumes after it; any other character
   * is kept.
   */
  function Camelize(s: string): (r: string)
    ensures |r| <= |s|
    decreases |s|
  {
    if |s| >= 2 && s[0] == '-' && IsWordChar(s[1]) then [ToUpper(s[1])] + Camelize(s[2..])
    else if s == [] then []
    else [s[0]] + Camelize(s[1..])
  }

  /** Somewhere in `s` a `-` is immediately followed by a word character. */
  predicate HasHyphenWord(s: string) {
    exists i :: 0 <= i < |s| - 1 && s[i] == '-' && IsWordChar(s[i + 1])
  }

  lemma {:induction false} CamelizeWithoutMatch(s: string)
    requires !HasHyphenWord(s)
    ensures Camelize(s) == s
    decreases |s|
  {
    if s != [] {
      var t := s[1..];
      forall i | 0 <= i < |t| - 1 && t[i] == '-' ensures !IsWordChar(t[i + 1]) {
        assert s[i + 1] == t[i] && s[i + 2] == t[i + 1];
      }
      CamelizeWithoutMatch(t);
    }
  }

  lemma {:induction false} CamelizeShortens(s: string)
    requires HasHyphenWord(s)
    ensures |Camelize(s)| < |s|
    decreases |s|
  {
    if !(|s| >= 2 && s[0] == '-' && IsWordChar(s[1])) {
      var i :| 0 <= i < |s| - 1 && s[i] == '-' && IsWordChar(s[i + 1]);
      var t := s[1..];
      assert t[i - 1] == '-' && IsWordChar(t[i]);
      CamelizeShortens(t);
    }
  }

  /** `camelize` leaves a string alone exactly when it has no `-` before a word character. */
  lemma CamelizeUnchangedIff(s: string)
    ensures Camelize(s) == s <==> !HasHyphenWord(s)
  {
    if HasHyphenWord(s) {
      CamelizeShortens(s);
    } else {
      CamelizeWithoutMatch(s);
    }
  }

  /** In particular a name without any `-` is returned unchanged. */
  lemma CamelizeWithoutHyphen(s: string)
    requires '-' !in s
    ensures Camelize(s) == s
  {
    CamelizeWithoutMatch(s);
  }

  /** A `-` at the end of the string has no character to capture and stays. */
  lemma CamelizeKeepsTrailingHyphen(s: string)
    ensures Camelize(s + "-") == Camelize(s) + "-"
  {
    CamelizeSplit(s, "-");
    assert Camelize("-") == "-" by { assert "-"[1..] == []; }
  }

  /** A string with every `-` removed and every letter upper-cased. */
  function Folded(s: string): string
    decreases |s|
  {
    if s == [] then []
    else (if s[0] == '-' then [] else [ToUpper(s[0])]) + Folded(s[1..])
  }

  /**
   * `camelize` only removes hyphens and changes the case of letters: apart
   * from those, the characters are kept, in their order.
   */
  lemma {:induction false} CamelizeOnlyDropsHyphens(s: string)
    ensures Folded(Camelize(s)) == Folded(s)
    decreases |s|
  {
    if |s| >= 2 && s[0] == '-' && IsWordChar(s[1]) {
      CamelizeOnlyDropsHyphens(s[2..]);
      var r := [ToUpper(s[1])] + Camelize(s[2..]);
      assert r[1..] == Camelize(s[2..]);
      assert s[1..][1..] == s[2..];
    } else if s != [] {
      CamelizeOnlyDropsHyphens(s[1..]);
      var r := [s[0]] + Camelize(s[1..]);
      assert r[1..] == Camelize(s[1..]);
    }
  }

  /** A prefix without hyphens is copied as it is. */
  lemma {:induction false} CamelizeHyphenFreePrefix(a: string, b: string)
    requires '-' !in a
    ensures Camelize(a + b) == a + Camelize(b)
    decreases |a|
  {
    if a != [] {
      var u := a + b;
      assert a[0] in a;
      assert u[0] == a[0] && u[1..] == a[1..] + b;
      CamelizeHyphenFreePrefix(a[1..], b);
      calc {
        Camelize(u);
        [u[0]] + Camelize(u[1..]);
        [a[0]] + (a[1..] + Camelize(b));
        { assert a == [a[0]] + a[1..]; }
        a + Camelize(b);
      }
    } else {
      assert a + b == b;
    }
  }

  lemma DropOfConcat(a: string, b: string, n: nat)
    requires n <= |a|
    ensures (a + b)[n..] == a[n..] + b
  {
  }

  lemma ConcatAssoc(x: string, y: string, z: string)
    ensures x + (y + z) == (x + y) + z
  {
  }

  /** One step of the scan over `a + b` when `a` starts with a match. */
  lemma SplitAfterMatch(a: string, b: string)
    requires |a| >= 2 && a[0] == '-' && IsWordChar(a[1])
    requires Camelize(a[2..] + b) == Camelize(a[2..]) + Camelize(b)
    ensures Camelize(a + b) == Camelize(a) + Camelize(b)
  {
    var u := a + b;
    DropOfConcat(a, b, 2);
    assert u[0] == a[0] && u[1] == a[1];
    ConcatAssoc([ToUpper(a[1])], Camelize(a[2..]), Camelize(b));
  }

  /** One step of the scan over `a + b` when `a`, of length two or more, does not start with a match. */
  lemma SplitAfterChar(a: string, b: string)
    requires |a| >= 2 && !(a[0] == '-' && IsWordChar(a[1]))
    requires Camelize(a[1..] + b) == Camelize(a[1..]) + Camelize(b)
    ensures Camelize(a + b) == Camelize(a) + Camelize(b)
  {
    var u := a + b;
    DropOfConcat(a, b, 1);
    assert u[0] == a[0] && u[1] == a[1];
    ConcatAssoc([a[0]], Camelize(a[1..]), Camelize(b));
  }

  /**
   * The global scan can be split wherever no match straddles the cut: unless
   * `a` ends with `-` and `b` starts with a word character, `camelize` of
   * `a + b` is `camelize` of `a` followed by `camelize` of `b`.
   */
  lemma {:induction false} CamelizeSplit(a: string, b: string)
    requires a == [] || b == [] || !(a[|a| - 1] == '-' && IsWordChar(b[0]))
    ensures Camelize(a + b) == Camelize(a) + Camelize(b)
    decreases |a|
  {
    if a == [] {
      assert a + b == b;
    } else if |a| == 1 {
      var u := a + b;
      assert Camelize(a) == a by { assert a[1..] == []; }
      assert u[1..] == b;
    } else if a[0] == '-' && IsWordChar(a[1]) {
      var t := a[2..];
      assert t == [] || t[|t| - 1] == a[|a| - 1];
      CamelizeSplit(t, b);
      SplitAfterMatch(a, b);
    } else {
      var t := a[1..];
      assert t[|t| - 1] == a[|a| - 1];
      CamelizeSplit(t, b);
      SplitAfterChar(a, b);
    }
  }

  /**
   * A `-` followed by a character that is not a word character is not a
   * match: it stays, and the scan goes on with that character.
   */
  lemma CamelizeKeepsHyphenBeforeNonWord(a: string, c: char, b: string)
    requires !IsWordChar(c)
    ensures Camelize(a + ['-', c] + b) == Camelize(a) + ['-'] + Camelize([c] + b)
  {
    var rest := [c] + b;
    assert a + ['-', c] + b == a + (['-'] + rest) by {
      assert ['-', c] == ['-'] + [c];
      ConcatAssoc(a, ['-'], [c]);
      ConcatAssoc(a + ['-'], [c], b);
      ConcatAssoc(a, ['-'], rest);
    }
    CamelizeSplit(a, ['-'] + rest);
    CamelizeSplit(['-'], rest);
    assert Camelize(['-']) == ['-'] by { assert ['-'][1..] == []; }
    ConcatAssoc(Camelize(a), ['-'], Camelize(rest));
  }

  /**
   * A `-` followed by a word character is a match wherever it stands: both
   * are replaced by that character upper-cased, and the scan resumes after it.
   */
  lemma CamelizeReplacesHyphenWord(a: string, c: char, b: string)
    requires IsWordChar(c)
    ensures Camelize(a + ['-', c] + b) == Camelize(a) + [ToUpper(c)] + Camelize(b)
  {
    var rest := ['-', c] + b;
    assert a + ['-', c] + b == a + rest;
    CamelizeSplit(a, rest);
    assert rest[2..] == b;
  }

  /** The long flag `output-dir` becomes the property `outputDir`. */
  lemma CamelizeOutputDir()
    ensures Camelize("output-dir") == "outputDir"
  {
    assert "output-dir" == "output" + "-dir";
    CamelizeHyphenFreePrefix("output", "-dir");
    assert Camelize("-dir") == "Dir" by {
      assert "-dir"[2..] == "ir";
      CamelizeWithoutHyphen("ir");
    }
    assert "output" + "Dir" == "outputDir";
  }

  // ---------------------------------------------------------------------------
  // cleanArgs

  /** An option declared on a command, known by its long flag (`--output-dir`). */
  datatype CliOption = CliOption(long: string)

  /**
   * A property value of the parsed command: what the parser stored for an
   * option, or one of the command object's own methods. A property that is
   * not in the dictionary is `undefined`.
   */
  datatype Value = Text(text: string) | Flag(on: bool) | Number(n: int) | Callable

  /** `long.replace(/^--/, '')` */
  function StripLongPrefix(long: string): (name: string)
    ensures |long| >= 2 && long[..2] == "--" ==> long == "--" + name
    ensures !(|long| >= 2 && long[..2] == "--") ==> name == long
  {
    if |long| >= 2 && long[..2] == "--" then long[2..] else long
  }

  /** The property name under which the parser stores an option's value. */
  function OptionKey(o: CliOption): string {
    Camelize(StripLongPrefix(o.long))
  }

  /** A value `cleanArgs` copies: neither `undefined` (absent) nor a function. */
  predicate Copied(cmd: map<string, Value>, key: string) {
    key in cmd && !cmd[key].Callable?
  }

  /**
   * `cleanArgs(cmd)`: for every option of the command, copy the value stored
   * under its property name, unless it is missing or a function.
   */
  method CleanArgs(options: seq<CliOption>, cmd: map<string, Value>) returns (args: map<string, Value>)
    ensures forall k :: k in args ==> Copied(cmd, k) && args[k] == cmd[k]
    ensures forall k :: k in args ==> exists o :: o in options && OptionKey(o) == k
    ensures forall o :: o in options && Copied(cmd, OptionKey(o)) ==> OptionKey(o) in args
  {
    args := map[];
    for i := 0 to |options|
      invariant forall k :: k in args ==> Copied(cmd, k) && args[k] == cmd[k]
      invariant forall k :: k in args ==> exists o :: o in options[..i] && OptionKey(o) == k
      invariant forall o :: o in options[..i] && Copied(cmd, OptionKey(o)) ==> OptionKey(o) in args
    {
      var key := OptionKey(options[i]);
      assert options[..i + 1] == options[..i] + [options[i]];
      if Copied(cmd, key) {
        args := args[key := cmd[key]];
      }
    }
    assert options[..|options|] == options;
  }

  /** The option `--output-dir` is stored under `outputDir`, the name the download reads. */
  lemma OutputDirOptionKey()
    ensures OptionKey(CliOption("--output-dir")) == "outputDir"
  {
    assert "--output-dir"[..2] == "--" && "--output-dir"[2..] == "output-dir";
    CamelizeOutputDir();
  }

  /** A long flag without further hyphens is stored under its own name. */
  lemma FlagKey(long: string, name: string)
    requires long == "--" + name && '-' !in name
    ensures OptionKey(CliOption(long)) == name
  {
    assert long[..2] == "--" && long[2..] == name;
    CamelizeWithoutHyphen(name);
  }
}
