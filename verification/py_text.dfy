/** The Python `str` operations the metadata fetcher relies on, over `seq<char>`:
    `strip()`, `split()`, `re.split` on a character class, `replace(x, '')`,
    `sub in s`, `s.split(sep, 1)`, `lower()` and `re.sub(r'\(.*?\)', '', s)`.
    The functions carry only the bounds their callers need; what they mean is
    stated by the lemmas beside them. */
module PyText {
  import opened Wrappers

  // ---------------------------------------------------------------------------
  // Whitespace, strip() and split()
  // ---------------------------------------------------------------------------

  /** Python's `str.isspace()` for one character: the set `strip()` and `split()` remove. */
  predicate IsSpace(ch: char) {
    ch == ' ' || ('\t' <= ch <= '\r') || ('\U{1C}' <= ch <= '\U{1F}') ||
    ch == '\U{85}' || ch == '\U{A0}' || ch == '\U{1680}' || ('\U{2000}' <= ch <= '\U{200A}') ||
    ch == '\U{2028}' || ch == '\U{2029}' || ch == '\U{202F}' || ch == '\U{205F}' || ch == '\U{3000}'
  }

  /** Every character of `s` is whitespace. */
  predicate Blank(s: string) {
    forall i :: 0 <= i < |s| ==> IsSpace(s[i])
  }

  /** `s.lstrip()`. */
  function TrimStart(s: string): string
    decreases |s|
  {
    if s != [] && IsSpace(s[0]) then TrimStart(s[1..]) else s
  }

  /** `s.rstrip()`. */
  function TrimEnd(s: string): string
    decreases |s|
  {
    if s != [] && IsSpace(s[|s| - 1]) then TrimEnd(s[..|s| - 1]) else s
  }

  /** `s.strip()`. */
  function Strip(s: string): string {
    TrimEnd(TrimStart(s))
  }

  /** `lstrip()` drops a whitespace prefix and nothing else. */
  lemma {:induction false} TrimStartSpec(s: string)
    ensures |TrimStart(s)| <= |s| && TrimStart(s) == s[|s| - |TrimStart(s)|..]
    ensures TrimStart(s) != [] ==> !IsSpace(TrimStart(s)[0])
    ensures Blank(s[..|s| - |TrimStart(s)|])
    decreases |s|
  {
    if s != [] && IsSpace(s[0]) {
      TrimStartSpec(s[1..]);
    }
  }

  /** `rstrip()` drops a whitespace suffix and nothing else. */
  lemma {:induction false} TrimEndSpec(s: string)
    ensures |TrimEnd(s)| <= |s| && TrimEnd(s) == s[..|TrimEnd(s)|]
    ensures TrimEnd(s) != [] ==> !IsSpace(TrimEnd(s)[|TrimEnd(s)| - 1])
    ensures Blank(s[|TrimEnd(s)|..])
    decreases |s|
  {
    if s != [] && IsSpace(s[|s| - 1]) {
      var t := s[..|s| - 1];
      TrimEndSpec(t);
      var r := TrimEnd(s);
      assert forall i :: 0 <= i < |s| - 1 - |r| ==> s[|r|..][i] == t[|r|..][i];
    }
  }

  /** `strip()` is empty exactly on a blank string; otherwise neither of its ends is
      whitespace, and it is a piece of `s` with only whitespace cut off around it. */
  lemma StripSpec(s: string)
    ensures Strip(s) == [] <==> Blank(s)
    ensures Strip(s) != [] ==> !IsSpace(Strip(s)[0]) && !IsSpace(Strip(s)[|Strip(s)| - 1])
    ensures exists a :: 0 <= a <= |s| - |Strip(s)| && Strip(s) == s[a..a + |Strip(s)|] &&
                        Blank(s[..a]) && Blank(s[a + |Strip(s)|..])
  {
    var t := TrimStart(s);
    TrimStartSpec(s);
    TrimEndSpec(t);
    var r := TrimEnd(t);
    var a := |s| - |t|;
    assert r == s[a..a + |r|];
    assert s[a + |r|..] == t[|r|..];
    if r == [] {
      assert s == s[..a] + t;
    } else {
      assert r[0] == t[0];
    }
  }

  /** `strip()` adds no character. */
  lemma StripKeepsChars(s: string)
    ensures forall ch <- Strip(s) :: ch in s
  {
    var t := TrimStart(s);
    TrimStartSpec(s);
    TrimEndSpec(t);
    forall ch <- Strip(s) ensures ch in s {
      var j :| 0 <= j < |Strip(s)| && Strip(s)[j] == ch;
      assert t[j] == ch;
      assert s[|s| - |t| + j] == ch;
    }
  }

  /** `re.split` on a character class: the pieces between separator characters,
      empty pieces included, so there is always at least one. */
  function Split(s: string, isSep: char -> bool): (pieces: seq<string>)
    ensures |pieces| >= 1
    decreases |s|
  {
    if s == [] then [""]
    else
      var rest := Split(s[1..], isSep);
      if isSep(s[0]) then [""] + rest
      else [[s[0]] + rest[0]] + rest[1..]
  }

  /** No piece holds a separator. */
  lemma {:induction false} SplitPiecesHaveNoSeparator(s: string, isSep: char -> bool)
    ensures forall i, j :: 0 <= i < |Split(s, isSep)| && 0 <= j < |Split(s, isSep)[i]| ==>
      !isSep(Split(s, isSep)[i][j])
    decreases |s|
  {
    if s != [] {
      SplitPiecesHaveNoSeparator(s[1..], isSep);
    }
  }

  /** The separator characters of `s`, in order. */
  function Separators(s: string, isSep: char -> bool): string
    decreases |s|
  {
    if s == [] then []
    else if isSep(s[0]) then [s[0]] + Separators(s[1..], isSep)
    else Separators(s[1..], isSep)
  }

  /** Joins `pieces` putting `seps[i]` between piece i and piece i+1. */
  function Rejoin(pieces: seq<string>, seps: string): string
    requires |pieces| == |seps| + 1
    decreases |seps|
  {
    if seps == [] then pieces[0]
    else pieces[0] + [seps[0]] + Rejoin(pieces[1..], seps[1..])
  }

  /** Splitting loses only the separators: there is one piece more than there are
      separators, and putting each separator back between its pieces gives `s` again. */
  lemma {:induction false} SplitRejoin(s: string, isSep: char -> bool)
    ensures |Split(s, isSep)| == |Separators(s, isSep)| + 1
    ensures Rejoin(Split(s, isSep), Separators(s, isSep)) == s
    decreases |s|
  {
    if s != [] {
      SplitRejoin(s[1..], isSep);
      var rest := Split(s[1..], isSep);
      var seps := Separators(s[1..], isSep);
      if isSep(s[0]) {
        assert Split(s, isSep)[1..] == rest;
        assert s == [s[0]] + s[1..];
      } else {
        var pieces := Split(s, isSep);
        assert pieces[1..] == rest[1..];
        if seps == [] {
          assert s == [s[0]] + s[1..];
        } else {
          assert Rejoin(rest, seps) == rest[0] + [seps[0]] + Rejoin(rest[1..], seps[1..]);
          assert Rejoin(pieces, seps) == ([s[0]] + rest[0]) + [seps[0]] + Rejoin(rest[1..], seps[1..]);
          assert s == [s[0]] + s[1..];
        }
      }
    }
  }

  /** A separator-free prefix joins the first piece of what follows it. */
  lemma {:induction false} SplitPlainPrefix(a: string, y: string, isSep: char -> bool)
    requires forall i :: 0 <= i < |a| ==> !isSep(a[i])
    ensures Split(a + y, isSep) == [a + Split(y, isSep)[0]] + Split(y, isSep)[1..]
    decreases |a|
  {
    if a == [] {
      assert a + y == y;
      var pieces := Split(y, isSep);
      assert a + pieces[0] == pieces[0];
      assert pieces == [pieces[0]] + pieces[1..];
    } else {
      assert (a + y)[1..] == a[1..] + y;
      assert (a + y)[0] == a[0] && !isSep(a[0]);
      assert forall i :: 0 <= i < |a[1..]| ==> !isSep(a[1..][i]) by {
        forall i | 0 <= i < |a[1..]| ensures !isSep(a[1..][i]) {
          assert a[1..][i] == a[i + 1];
        }
      }
      SplitPlainPrefix(a[1..], y, isSep);
      var rest := Split(a[1..] + y, isSep);
      assert Split(a + y, isSep) == [[a[0]] + rest[0]] + rest[1..];
      assert rest[0] == a[1..] + Split(y, isSep)[0];
      assert rest[1..] == Split(y, isSep)[1..];
      assert [a[0]] + (a[1..] + Split(y, isSep)[0]) == a + Split(y, isSep)[0];
    }
  }

  /** A leading separator closes an empty first piece. */
  lemma SplitSeparatorPrefix(c: char, y: string, isSep: char -> bool)
    requires isSep(c)
    ensures Split([c] + y, isSep) == [""] + Split(y, isSep)
  {
    assert ([c] + y)[1..] == y;
  }

  /** The non-empty pieces, in order. */
  function NonEmpty(pieces: seq<string>): seq<string>
    decreases |pieces|
  {
    if pieces == [] then []
    else if pieces[0] == [] then NonEmpty(pieces[1..])
    else [pieces[0]] + NonEmpty(pieces[1..])
  }

  lemma {:induction false} NonEmptySpec(pieces: seq<string>)
    ensures forall p <- NonEmpty(pieces) :: p != [] && p in pieces
    ensures forall p <- pieces :: p != [] ==> p in NonEmpty(pieces)
    decreases |pieces|
  {
    if pieces != [] {
      NonEmptySpec(pieces[1..]);
      assert pieces == [pieces[0]] + pieces[1..];
    }
  }

  /** `s.split()` with no argument: the maximal runs of non-whitespace characters. */
  function Words(s: string): seq<string> {
    NonEmpty(Split(s, IsSpace))
  }

  /** Each word is non-empty and free of whitespace, and every non-empty piece
      between whitespace characters is a word. */
  lemma WordsSpec(s: string)
    ensures forall i :: 0 <= i < |Words(s)| ==> Words(s)[i] != [] && Words(s)[i] in Split(s, IsSpace)
    ensures forall w <- Words(s) :: forall ch <- w :: !IsSpace(ch)
    ensures forall p <- Split(s, IsSpace) :: p != [] ==> p in Words(s)
  {
    SplitPiecesHaveNoSeparator(s, IsSpace);
    NonEmptySpec(Split(s, IsSpace));
    var pieces := Split(s, IsSpace);
    forall i | 0 <= i < |Words(s)| ensures Words(s)[i] != [] && Words(s)[i] in pieces {
      assert Words(s)[i] in Words(s);
    }
    forall w <- Words(s), ch <- w ensures !IsSpace(ch) {
      var i :| 0 <= i < |pieces| && pieces[i] == w;
      var j :| 0 <= j < |w| && w[j] == ch;
    }
  }

  // ---------------------------------------------------------------------------
  // Character removal, lowercasing, substring search
  // ---------------------------------------------------------------------------

  /** `s.replace(x, '')` for a one-character `x`. */
  function RemoveChar(s: string, x: char): string
    decreases |s|
  {
    if s == [] then []
    else if s[0] == x then RemoveChar(s[1..], x)
    else [s[0]] + RemoveChar(s[1..], x)
  }

  /** `replace(x, '')` leaves no `x`, keeps every other character, adds none, and is
      the identity on a string without `x`. */
  lemma {:induction false} RemoveCharSpec(s: string, x: char)
    ensures x !in RemoveChar(s, x)
    ensures forall ch <- RemoveChar(s, x) :: ch in s
    ensures forall ch <- s :: ch != x ==> ch in RemoveChar(s, x)
    ensures x !in s ==> RemoveChar(s, x) == s
    decreases |s|
  {
    if s != [] {
      RemoveCharSpec(s[1..], x);
      assert s == [s[0]] + s[1..];
    }
  }

  /** `ch.lower()` on ASCII letters; every other character is left as it is. */
  function LowerChar(ch: char): char {
    if 'A' <= ch <= 'Z' then (ch as int - 'A' as int + 'a' as int) as char else ch
  }

  /** `s.lower()`, character by character. */
  function Lower(s: string): (lower: string)
    ensures |lower| == |s|
  {
    seq(|s|, i requires 0 <= i < |s| => LowerChar(s[i]))
  }

  /** `sub` occurs in `s` starting at index `i`. */
  predicate OccursAt(s: string, sub: string, i: int) {
    0 <= i && i + |sub| <= |s| && s[i..i + |sub|] == sub
  }

  /** The first index at or after `from` where `sub` occurs in `s`. */
  function FindFrom(s: string, sub: string, from: nat): (r: Option<nat>)
    ensures r.Some? ==> from <= r.value && OccursAt(s, sub, r.value)
    decreases |s| - from
  {
    if from + |sub| > |s| then None
    else if s[from..from + |sub|] == sub then Some(from)
    else FindFrom(s, sub, from + 1)
  }

  /** The search finds the first occurrence at or after `from`, and only misses
      when there is none. */
  lemma {:induction false} FindFromFirst(s: string, sub: string, from: nat)
    ensures FindFrom(s, sub, from).Some? ==>
      forall i :: from <= i < FindFrom(s, sub, from).value ==> !OccursAt(s, sub, i)
    ensures FindFrom(s, sub, from).None? ==> forall i :: from <= i ==> !OccursAt(s, sub, i)
    decreases |s| - from
  {
    if from + |sub| <= |s| && s[from..from + |sub|] != sub {
      FindFromFirst(s, sub, from + 1);
    }
  }

  /** `s.find(sub)`: the first occurrence of `sub` in `s`, if any. */
  function Find(s: string, sub: string): Option<nat> {
    FindFrom(s, sub, 0)
  }

  /** Python's `sub in s`. */
  predicate Contains(s: string, sub: string) {
    Find(s, sub).Some?
  }

  /** `sub in s` holds exactly when `sub` occurs somewhere in `s`. */
  lemma ContainsSpec(s: string, sub: string)
    ensures Contains(s, sub) <==> exists i :: OccursAt(s, sub, i)
  {
    FindFromFirst(s, sub, 0);
  }

  // ---------------------------------------------------------------------------
  // re.sub(r'\(.*?\)', '', s)
  // ---------------------------------------------------------------------------

  /** Where the lazy group `\(.*?\)` opened just before `t` ends: the index in `t` of
      the first ')', provided no newline comes before it (`.` does not match '\n'). */
  function GroupEnd(t: string): (r: Option<nat>)
    ensures r.Some? ==> r.value < |t|
    decreases |t|
  {
    if t == [] then None
    else if t[0] == ')' then Some(0)
    else if t[0] == '\n' then None
    else
      match GroupEnd(t[1..])
      case Some(j) => Some(j + 1)
      case None => None
  }

  /** A group ends at the first ')' when no newline precedes it, and nowhere otherwise. */
  lemma {:induction false} GroupEndSpec(t: string)
    ensures GroupEnd(t).Some? ==> t[GroupEnd(t).value] == ')'
    ensures GroupEnd(t).Some? ==> forall k :: 0 <= k < GroupEnd(t).value ==> t[k] != ')' && t[k] != '\n'
    ensures GroupEnd(t).None? ==> forall k :: 0 <= k < |t| && t[k] == ')' ==> '\n' in t[..k]
    decreases |t|
  {
    if t != [] && t[0] != ')' && t[0] != '\n' {
      GroupEndSpec(t[1..]);
      if GroupEnd(t).None? {
        forall k | 1 <= k < |t| && t[k] == ')' ensures '\n' in t[..k] {
          assert t[1..][k - 1] == ')';
          assert t[1..][..k - 1] <= t[..k][1..];
        }
      }
    }
  }

  /** `re.sub(r'\(.*?\)', '', s)`: scanning left to right, every '(' that has a
      group end is removed together with everything up to and including that ')';
      the other characters are kept in order. */
  function StripGroups(s: string): (r: string)
    ensures |r| <= |s|
    decreases |s|
  {
    if s == [] then []
    else if s[0] == '(' && GroupEnd(s[1..]).Some? then StripGroups(s[GroupEnd(s[1..]).value + 2..])
    else [s[0]] + StripGroups(s[1..])
  }

  /** Removing groups adds no character. */
  lemma {:induction false} StripGroupsKeepsChars(s: string)
    ensures forall ch <- StripGroups(s) :: ch in s
    decreases |s|
  {
    if s != [] {
      if s[0] == '(' && GroupEnd(s[1..]).Some? {
        var rest := s[GroupEnd(s[1..]).value + 2..];
        StripGroupsKeepsChars(rest);
        forall ch <- StripGroups(s) ensures ch in s {
          assert ch in rest;
          var j :| 0 <= j < |rest| && rest[j] == ch;
          assert s[GroupEnd(s[1..]).value + 2 + j] == ch;
        }
      } else {
        StripGroupsKeepsChars(s[1..]);
        forall ch <- StripGroups(s) ensures ch in s {
          if ch != s[0] {
            assert ch in StripGroups(s[1..]);
            var j :| 0 <= j < |s[1..]| && s[1..][j] == ch;
            assert s[j + 1] == ch;
          }
        }
      }
    }
  }

  /** Text that opens no group is left as it is. */
  lemma {:induction false} StripGroupsPlain(s: string)
    requires '(' !in s
    ensures StripGroups(s) == s
    decreases |s|
  {
    if s != [] {
      assert s[0] in s;
      StripGroupsPlain(s[1..]);
      assert s == [s[0]] + s[1..];
    }
  }

  /** A group opened before `g + ")" + q` ends at that ')' when `g` holds neither ')' nor a newline. */
  lemma {:induction false} GroupEndAfter(g: string, q: string)
    requires ')' !in g && '\n' !in g
    ensures GroupEnd(g + ")" + q) == Some(|g|)
    decreases |g|
  {
    if g != [] {
      assert (g + ")" + q)[1..] == g[1..] + ")" + q;
      assert g[0] in g;
      GroupEndAfter(g[1..], q);
    }
  }

  /** A parenthesised span with no ')' or newline inside is removed, text before
      it that opens no group is kept, and the scan carries on after it. */
  lemma {:induction false} StripGroupsRemovesSpan(p: string, g: string, q: string)
    requires '(' !in p && ')' !in g && '\n' !in g
    ensures StripGroups(p + "(" + g + ")" + q) == p + StripGroups(q)
    decreases |p|
  {
    var s := p + "(" + g + ")" + q;
    if p == [] {
      assert s == "(" + (g + ")" + q);
      assert s[1..] == g + ")" + q;
      GroupEndAfter(g, q);
      assert s[|g| + 2..] == q;
    } else {
      assert s[0] == p[0] && p[0] in p;
      assert s[1..] == p[1..] + "(" + g + ")" + q;
      StripGroupsRemovesSpan(p[1..], g, q);
      assert p == [p[0]] + p[1..];
    }
  }
}
