/**
 The two string rewrites of the title-name repair: a snake_case doctype
 name becomes a "Capitalized Words" proper name, and a "Spaced Name" link
 target becomes `spaced_name`. Case mapping covers ASCII letters only.
 */
module TitleNameText {
  import opened Text

  /** Python's `str.capitalize()`: first character upper case, the rest lower case. */
  function Capitalize(w: string): (r: string)
    ensures |r| == |w|
    ensures |w| > 0 ==> r[0] == UpperChar(w[0])
    ensures forall i :: 0 < i < |w| ==> r[i] == LowerChar(w[i])
  {
    if |w| == 0 then "" else [UpperChar(w[0])] + Lower(w[1..])
  }

  /** Position of the first `c` in `s`. */
  function IndexOf(s: string, c: char): (i: nat)
    requires c in s
    ensures i < |s| && s[i] == c
    ensures forall j :: 0 <= j < i ==> s[j] != c
  {
    if s[0] == c then 0
    else
      assert c in s[1..] by {
        var k :| 0 <= k < |s| && s[k] == c;
        assert s[1..][k - 1] == c;
      }
      IndexOf(s[1..], c) + 1
  }

  /** Python's `sep.join(words)`. */
  function Join(words: seq<string>, sep: string): string {
    if |words| == 0 then ""
    else if |words| == 1 then words[0]
    else words[0] + sep + Join(words[1..], sep)
  }

  lemma JoinCons(w: string, rest: seq<string>, sep: string)
    requires |rest| > 0
    ensures Join([w] + rest, sep) == w + sep + Join(rest, sep)
  {
    assert ([w] + rest)[1..] == rest;
  }

  /** Python's `s.split(sep)` for a one-character separator: the pieces between separators. */
  function Split(s: string, sep: char): (parts: seq<string>)
    ensures |parts| > 0
    decreases |s|
  {
    if sep !in s then [s]
    else
      var i := IndexOf(s, sep);
      [s[..i]] + Split(s[i + 1..], sep)
  }

  lemma SplitUnfold(s: string, sep: char)
    requires sep in s
    ensures Split(s, sep) == [s[..IndexOf(s, sep)]] + Split(s[IndexOf(s, sep) + 1..], sep)
  {
  }

  /** Splitting gives one piece more than there are separators. */
  lemma {:induction false} SplitCount(s: string, sep: char)
    ensures |Split(s, sep)| == Count(s, sep) + 1
    decreases |s|
  {
    if sep in s {
      var i := IndexOf(s, sep);
      SplitUnfold(s, sep);
      SplitCount(s[i + 1..], sep);
      assert s == s[..i] + ([sep] + s[i + 1..]);
      CountConcat(s[..i], [sep] + s[i + 1..], sep);
      CountConcat([sep], s[i + 1..], sep);
      assert sep !in s[..i];
    }
  }

  /** No piece contains the separator. */
  lemma {:induction false} SplitPiecesClean(s: string, sep: char)
    ensures forall k :: 0 <= k < |Split(s, sep)| ==> sep !in Split(s, sep)[k]
    decreases |s|
  {
    if sep in s {
      var i := IndexOf(s, sep);
      SplitUnfold(s, sep);
      SplitPiecesClean(s[i + 1..], sep);
      assert sep !in s[..i];
    }
  }

  /** Joining the pieces with the separator gives back the input. */
  lemma {:induction false} SplitJoin(s: string, sep: char)
    ensures Join(Split(s, sep), [sep]) == s
    decreases |s|
  {
    if sep in s {
      var i := IndexOf(s, sep);
      var rest := Split(s[i + 1..], sep);
      SplitUnfold(s, sep);
      SplitJoin(s[i + 1..], sep);
      JoinCons(s[..i], rest, [sep]);
      assert s == s[..i] + [sep] + s[i + 1..];
    }
  }

  function CapitalizeAll(words: seq<string>): (r: seq<string>)
    ensures |r| == |words|
  {
    if |words| == 0 then [] else [Capitalize(words[0])] + CapitalizeAll(words[1..])
  }

  /**
   `' '.join(word.capitalize() for word in name.split('_'))`, one word at a
   time: the first word capitalised, then a space and the rest's proper name.
   `ProperNameSplitJoin` shows it is the split-capitalise-join expression.
   */
  function ProperName(name: string): string
    decreases |name|
  {
    if '_' !in name then Capitalize(name)
    else
      var i := IndexOf(name, '_');
      Capitalize(name[..i]) + " " + ProperName(name[i + 1..])
  }

  lemma CapitalizeAllCons(w: string, rest: seq<string>)
    ensures CapitalizeAll([w] + rest) == [Capitalize(w)] + CapitalizeAll(rest)
  {
    assert ([w] + rest)[1..] == rest;
  }

  /** The proper name is the capitalised pieces of the split, joined by spaces. */
  lemma {:induction false} ProperNameSplitJoin(s: string)
    ensures ProperName(s) == Join(CapitalizeAll(Split(s, '_')), " ")
    decreases |s|
  {
    if '_' in s {
      var i := IndexOf(s, '_');
      var w, words := s[..i], Split(s[i + 1..], '_');
      ProperNameSplitJoin(s[i + 1..]);
      SplitUnfold(s, '_');
      CapitalizeAllCons(w, words);
      JoinCons(Capitalize(w), CapitalizeAll(words), " ");
    } else {
      assert Split(s, '_') == [s];
      assert CapitalizeAll([s]) == [Capitalize(s)];
    }
  }

  /**
   The reference reading of the proper name, character by character: an
   underscore becomes a space; a character at the start or right after an
   underscore is upper-cased; every other character is lower-cased.
   */
  function TitleChar(s: string, i: nat): char
    requires i < |s|
  {
    if s[i] == '_' then ' '
    else if i == 0 || s[i - 1] == '_' then UpperChar(s[i])
    else LowerChar(s[i])
  }

  /** A single word, with no underscore, is capitalised character by character. */
  lemma CharwiseWord(s: string)
    requires '_' !in s
    ensures forall j :: 0 <= j < |s| ==> Capitalize(s)[j] == TitleChar(s, j)
  {
    forall j | 0 <= j < |s|
      ensures Capitalize(s)[j] == TitleChar(s, j)
    {
      assert s[j] in s;
      if j > 0 {
        assert s[j - 1] in s;
      }
    }
  }

  /** The first word, the space for the first underscore, and a tail that is already right. */
  lemma CharwiseJoin(s: string, i: nat, tail: string)
    requires i < |s| && s[i] == '_' && '_' !in s[..i]
    requires |tail| == |s| - i - 1
    requires forall j :: 0 <= j < |tail| ==> tail[j] == TitleChar(s[i + 1..], j)
    ensures forall j :: 0 <= j < |s| ==> (Capitalize(s[..i]) + " " + tail)[j] == TitleChar(s, j)
  {
    var w := s[..i];
    var r := Capitalize(w) + " " + tail;
    forall j | 0 <= j < |s|
      ensures r[j] == TitleChar(s, j)
    {
      if j < i {
        assert s[j] == w[j] && w[j] in w;
        if j > 0 {
          assert s[j - 1] == w[j - 1] && w[j - 1] in w;
        }
        assert r[j] == Capitalize(w)[j];
      } else if j == i {
        assert r[j] == ' ';
      } else {
        var rest := s[i + 1..];
        assert r[j] == tail[j - i - 1];
        assert s[j] == rest[j - i - 1];
        if j - 1 > i {
          assert s[j - 1] == rest[j - i - 2];
        }
      }
    }
  }

  /** The split-capitalise-join definition agrees with the character-by-character one. */
  lemma {:induction false} ProperNameCharwise(s: string)
    ensures |ProperName(s)| == |s|
    ensures forall i :: 0 <= i < |s| ==> ProperName(s)[i] == TitleChar(s, i)
    decreases |s|
  {
    if '_' in s {
      var i := IndexOf(s, '_');
      ProperNameCharwise(s[i + 1..]);
      CharwiseJoin(s, i, ProperName(s[i + 1..]));
    } else {
      CharwiseWord(s);
    }
  }

  /** Upper- and lower-casing move no character onto or off `c` unless `c` is a letter. */
  lemma CaseKeepsNonLetters(x: char, c: char)
    requires !('a' <= c <= 'z') && !('A' <= c <= 'Z')
    ensures UpperChar(x) == c <==> x == c
    ensures LowerChar(x) == c <==> x == c
  {
  }

  /** Two strings of one length whose `x` positions are exactly the `y` or `z` positions of the other. */
  lemma {:induction false} CountCharwise(a: string, b: string, x: char, y: char, z: char)
    requires |a| == |b| && y != z
    requires forall i :: 0 <= i < |a| ==> (a[i] == x <==> b[i] == y || b[i] == z)
    ensures Count(a, x) == Count(b, y) + Count(b, z)
    decreases |a|
  {
    if |a| > 0 {
      assert forall i :: 0 <= i < |a| - 1 ==> a[1..][i] == a[i + 1] && b[1..][i] == b[i + 1];
      CountCharwise(a[1..], b[1..], x, y, z);
    }
  }

  /**
   The proper name has no underscore, and each of its spaces stands for an
   underscore or a space of the input; for an input without spaces, its
   space count is the input's underscore count.
   */
  lemma ProperNameSpaces(s: string)
    ensures '_' !in ProperName(s)
    ensures Count(ProperName(s), ' ') == Count(s, '_') + Count(s, ' ')
    ensures ' ' !in s ==> Count(ProperName(s), ' ') == Count(s, '_')
  {
    ProperNameCharwise(s);
    var r := ProperName(s);
    forall i | 0 <= i < |s|
      ensures r[i] != '_'
      ensures r[i] == ' ' <==> s[i] == '_' || s[i] == ' '
    {
      CaseKeepsNonLetters(s[i], '_');
      CaseKeepsNonLetters(s[i], ' ');
    }
    CountCharwise(r, s, ' ', '_', ' ');
  }

  /** `s.replace(old, new)` for single characters. */
  function ReplaceChar(s: string, from: char, to: char): (r: string)
    ensures |r| == |s|
    ensures forall i :: 0 <= i < |s| ==> r[i] == (if s[i] == from then to else s[i])
  {
    seq(|s|, i requires 0 <= i < |s| => if s[i] == from then to else s[i])
  }

  /** `options.lower().replace(' ', '_')`: the link target rewritten as a snake_case name. */
  function LinkOption(options: string): (r: string)
    ensures |r| == |options|
    ensures ' ' !in r
  {
    var r := ReplaceChar(Lower(options), ' ', '_');
    assert forall i :: 0 <= i < |r| ==> r[i] != ' ' by {
      forall i | 0 <= i < |r|
        ensures r[i] != ' '
      {
        CaseKeepsNonLetters(options[i], ' ');
      }
    }
    r
  }

  /** Rewriting an already rewritten option changes nothing. */
  lemma LinkOptionIdempotent(options: string)
    ensures LinkOption(LinkOption(options)) == LinkOption(options)
  {
    var once := LinkOption(options);
    forall i | 0 <= i < |once|
      ensures LinkOption(once)[i] == once[i]
    {
      CaseKeepsNonLetters(options[i], ' ');
    }
  }

  /** An option with a space is always changed by the rewrite. */
  lemma LinkOptionChangesSpaced(options: string)
    requires ' ' in options
    ensures LinkOption(options) != options
  {
  }

  /**
   The two rewrites are inverse on space-free names: rewriting the proper
   name of such a name as a link target gives back the name in lower case,
   so a lower-case snake_case name comes back unchanged.
   */
  lemma LinkOptionOfProperName(s: string)
    requires ' ' !in s
    ensures LinkOption(ProperName(s)) == Lower(s)
    ensures (forall i :: 0 <= i < |s| ==> !('A' <= s[i] <= 'Z')) ==> LinkOption(ProperName(s)) == s
  {
    ProperNameCharwise(s);
    var p := ProperName(s);
    var r := LinkOption(p);
    forall i | 0 <= i < |s|
      ensures r[i] == Lower(s)[i]
    {
      assert s[i] in s;
      LinkOptionAt(p, i);
      LowerAbsorbsCase(s[i]);
      CaseKeepsNonLetters(s[i], ' ');
    }
    assert r == Lower(s);
  }

  lemma LinkOptionAt(options: string, i: nat)
    requires i < |options|
    ensures LinkOption(options)[i] == if options[i] == ' ' then '_' else LowerChar(options[i])
  {
  }

  /** Lower-casing forgets any earlier change of case. */
  lemma LowerAbsorbsCase(c: char)
    ensures LowerChar(UpperChar(c)) == LowerChar(c)
    ensures LowerChar(LowerChar(c)) == LowerChar(c)
  {
  }
}
