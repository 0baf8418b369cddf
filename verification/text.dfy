/** The string operations the service relies on, as JavaScript and Node's POSIX
    `path` module define them: `split('/')`, `join('/')`, `slice(-2)`,
    `path.basename`, `path.extname`, `toLowerCase` and `includes`. */
module Text {

  const Slash: char := '/'
  const Dot: char := '.'

  /** `s.split('/')`: the maximal slash-free pieces between the slashes of `s`,
      so there is always one more piece than there are slashes. */
  function Split(s: string): (parts: seq<string>)
    ensures |parts| >= 1
    ensures forall i :: 0 <= i < |parts| ==> Slash !in parts[i]
    ensures Slash !in s ==> parts == [s]
  {
    if |s| == 0 then [""]
    else
      var rest := Split(s[1..]);
      if s[0] == Slash then [""] + rest
      else
        assert Slash !in s ==> Slash !in s[1..] && s == [s[0]] + s[1..];
        [[s[0]] + rest[0]] + rest[1..]
  }

  /** `parts.join('/')`. */
  function Join(parts: seq<string>): string
  {
    if |parts| == 0 then ""
    else if |parts| == 1 then parts[0]
    else parts[0] + [Slash] + Join(parts[1..])
  }

  /** `parts.slice(-2)`: the last two elements, or all of them when there are fewer. */
  function LastTwo<T>(parts: seq<T>): (r: seq<T>)
    ensures |r| == if |parts| < 2 then |parts| else 2
    ensures parts == parts[..|parts| - |r|] + r
  {
    if |parts| < 2 then parts else parts[|parts| - 2..]
  }

  /** Joining the pieces of a split gives back the original string. */
  lemma {:induction false} JoinSplit(s: string)
    ensures Join(Split(s)) == s
  {
    if |s| > 0 {
      var rest := Split(s[1..]);
      JoinSplit(s[1..]);
      assert s == [s[0]] + s[1..];
      SplitCons(s[0], s[1..]);
      if s[0] == Slash {
        JoinEmptyFirst(rest);
      } else {
        JoinGlue(s[0], rest);
      }
    }
  }

  /** A leading empty piece joins to a leading slash. */
  lemma JoinEmptyFirst(r: seq<string>)
    requires |r| >= 1
    ensures Join([""] + r) == [Slash] + Join(r)
  {
    var parts := [""] + r;
    assert parts[1..] == r;
  }

  /** Gluing a character onto the first piece puts it in front of the join. */
  lemma JoinGlue(c: char, r: seq<string>)
    requires |r| >= 1
    ensures Join([[c] + r[0]] + r[1..]) == [c] + Join(r)
  {
    var parts := [[c] + r[0]] + r[1..];
    if |r| > 1 {
      assert parts[1..] == r[1..];
      SeqAssoc([c], r[0], [Slash] + Join(r[1..]));
      SeqAssoc(r[0], [Slash], Join(r[1..]));
      SeqAssoc([c] + r[0], [Slash], Join(r[1..]));
    }
  }

  /** Splitting at a slash splits the two sides independently. */
  lemma {:induction false} SplitAtSlash(x: string, y: string)
    ensures Split(x + [Slash] + y) == Split(x) + Split(y)
  {
    if |x| == 0 {
      assert x + [Slash] + y == [Slash] + y;
      SplitCons(Slash, y);
    } else {
      SplitAtSlash(x[1..], y);
      SplitConsAtSlash(x[0], x[1..], y);
      assert x == [x[0]] + x[1..];
      assert x + [Slash] + y == [x[0]] + x[1..] + [Slash] + y;
    }
  }

  /** The inductive step of `SplitAtSlash`: putting a character in front. */
  lemma SplitConsAtSlash(c: char, t: string, y: string)
    requires Split(t + [Slash] + y) == Split(t) + Split(y)
    ensures Split([c] + t + [Slash] + y) == Split([c] + t) + Split(y)
  {
    assert [c] + t + [Slash] + y == [c] + (t + [Slash] + y);
    if c == Slash {
      SlashConsAtSlash(t, y);
    } else {
      LetterConsAtSlash(c, t, y);
    }
  }

  lemma SlashConsAtSlash(t: string, y: string)
    requires Split(t + [Slash] + y) == Split(t) + Split(y)
    ensures Split([Slash] + (t + [Slash] + y)) == Split([Slash] + t) + Split(y)
  {
    var a, b := Split(t), Split(y);
    SplitCons(Slash, t);
    SplitCons(Slash, t + [Slash] + y);
    SeqAssoc([""], a, b);
  }

  lemma SeqAssoc<T>(p: seq<T>, q: seq<T>, r: seq<T>)
    ensures p + (q + r) == (p + q) + r
  {
  }

  lemma LetterConsAtSlash(c: char, t: string, y: string)
    requires c != Slash
    requires Split(t + [Slash] + y) == Split(t) + Split(y)
    ensures Split([c] + (t + [Slash] + y)) == Split([c] + t) + Split(y)
  {
    SplitCons(c, t);
    SplitCons(c, t + [Slash] + y);
    GlueFirst([c], Split(t), Split(y));
  }

  /** Gluing a prefix onto the first piece commutes with appending more pieces. */
  lemma GlueFirst(p: string, r: seq<string>, ys: seq<string>)
    requires |r| >= 1
    ensures [p + (r + ys)[0]] + (r + ys)[1..] == ([p + r[0]] + r[1..]) + ys
  {
    assert (r + ys)[0] == r[0];
    assert (r + ys)[1..] == r[1..] + ys;
  }

  /** One unfolding of `Split` on a string with a known first character. */
  lemma SplitCons(c: char, t: string)
    ensures Split([c] + t) == if c == Slash then [""] + Split(t)
                              else [[c] + Split(t)[0]] + Split(t)[1..]
  {
    assert ([c] + t)[1..] == t;
  }

  /** Splitting a join of slash-free pieces gives back the pieces. */
  lemma {:induction false} SplitJoin(parts: seq<string>)
    requires |parts| >= 1
    requires forall i :: 0 <= i < |parts| ==> Slash !in parts[i]
    ensures Split(Join(parts)) == parts
  {
    if |parts| > 1 {
      SplitJoin(parts[1..]);
      SplitAtSlash(parts[0], Join(parts[1..]));
      assert Split(Join(parts)) == Split(parts[0]) + parts[1..];
    }
  }

  /** Node's `path.basename` after dropping trailing slashes. */
  function TrimTrailingSlashes(p: string): (r: string)
    ensures |r| <= |p| && r == p[..|r|]
    ensures |r| == 0 || r[|r| - 1] != Slash
    ensures forall i :: |r| <= i < |p| ==> p[i] == Slash
  {
    if |p| > 0 && p[|p| - 1] == Slash then TrimTrailingSlashes(p[..|p| - 1]) else p
  }

  /** `path.basename(p)` on POSIX: the last slash-free component once trailing
      slashes are dropped (empty for "" and "/"). */
  function Basename(p: string): (b: string)
    ensures Slash !in b
  {
    var parts := Split(TrimTrailingSlashes(p));
    parts[|parts| - 1]
  }

  lemma BasenameOfPlainName(name: string)
    requires Slash !in name
    ensures Basename(name) == name
  {
    if |name| > 0 {
      assert name[|name| - 1] in name;
    }
  }

  /** The base name of `dir/name` is `name`, whatever the directory. */
  lemma BasenameInDirectory(dir: string, name: string)
    requires Slash !in name && name != []
    ensures Basename(dir + [Slash] + name) == name
  {
    var p := dir + [Slash] + name;
    assert p[|p| - 1] == name[|name| - 1];
    assert name[|name| - 1] in name;
    assert TrimTrailingSlashes(p) == p;
    SplitAtSlash(dir, name);
  }

  /** Position of the last dot of `s`, or -1. */
  function LastDot(s: string): (i: int)
    ensures -1 <= i < |s|
    ensures i >= 0 ==> s[i] == Dot && forall j :: i < j < |s| ==> s[j] != Dot
    ensures i == -1 ==> Dot !in s
  {
    if |s| == 0 then -1
    else if s[|s| - 1] == Dot then |s| - 1
    else
      var i := LastDot(s[..|s| - 1]);
      assert i == -1 ==> forall c :: c in s ==> c in s[..|s| - 1] || c == s[|s| - 1];
      i
  }

  /** `path.extname(p)` on POSIX: from the last dot of the base name to its end,
      except that a name with no dot, a name whose only dot is its first
      character (".bashrc") and the name ".." have no extension. */
  function Extname(p: string): (ext: string)
    ensures ext == [] || (ext[0] == Dot && Dot !in ext[1..])
    ensures var b := Basename(p); ext == [] || (|ext| <= |b| && ext == b[|b| - |ext|..])
  {
    var b := Basename(p);
    var d := LastDot(b);
    if d <= 0 || b == ".." then "" else b[d..]
  }

  /** The extension of `dir/stem.ext` is `.ext` when the stem is a proper name. */
  lemma ExtnameOfName(dir: string, stem: string, ext: string)
    requires Slash !in stem && stem != [] && stem != [Dot]
    requires Slash !in ext && |ext| >= 1 && ext[0] == Dot && Dot !in ext[1..]
    ensures Extname(dir + [Slash] + (stem + ext)) == ext
  {
    var b := stem + ext;
    assert Slash !in b by {
      assert forall c :: c in b ==> c in stem || c in ext;
    }
    BasenameInDirectory(dir, b);
    var d := LastDot(b);
    assert b[|stem|] == Dot;
    assert d == |stem|;
    assert b != [Dot, Dot] by {
      if |b| == 2 { assert b[0] == stem[0]; }
    }
  }

  /** `String.prototype.toLowerCase` on ASCII letters. */
  function LowerChar(c: char): char
  {
    if 'A' <= c <= 'Z' then (c as int - 'A' as int + 'a' as int) as char else c
  }

  function Lower(s: string): (r: string)
    ensures |r| == |s|
    ensures forall i :: 0 <= i < |s| ==> r[i] == LowerChar(s[i])
  {
    seq(|s|, i requires 0 <= i < |s| => LowerChar(s[i]))
  }

  /** `s.includes(sub)`. */
  predicate Includes(s: string, sub: string)
  {
    StartsWith(s, sub) || (|s| > 0 && Includes(s[1..], sub))
  }

  predicate StartsWith(s: string, prefix: string)
  {
    |prefix| <= |s| && s[..|prefix|] == prefix
  }

  /** `sub` occurs in `s` starting at position `i`. */
  predicate OccursAt(s: string, sub: string, i: nat)
  {
    i + |sub| <= |s| && s[i..i + |sub|] == sub
  }

  /** `includes` finds `sub` exactly when it occurs at some position of `s`. */
  lemma {:induction false} IncludesIffOccurs(s: string, sub: string)
    ensures Includes(s, sub) <==> exists i: nat :: OccursAt(s, sub, i)
  {
    assert StartsWith(s, sub) <==> OccursAt(s, sub, 0);
    if |s| > 0 {
      IncludesIffOccurs(s[1..], sub);
      forall i: nat | OccursAt(s[1..], sub, i)
        ensures OccursAt(s, sub, i + 1)
      {
        assert s[1..][i..i + |sub|] == s[i + 1..i + 1 + |sub|];
      }
      forall i: nat | i >= 1 && OccursAt(s, sub, i)
        ensures OccursAt(s[1..], sub, i - 1)
      {
        assert s[1..][i - 1..i - 1 + |sub|] == s[i..i + |sub|];
      }
    } else {
      forall i: nat | OccursAt(s, sub, i) ensures i == 0 { }
    }
  }

}
