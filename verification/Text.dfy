/** Strings as the archive's Go code handles them: Unicode white space, word
    splitting, the "clean" form of an owner name, and the ordering of strings. */
module Text {

  /** `unicode.IsSpace`. */
  predicate IsSpace(c: char) {
    var n := c as int;
    || 9 <= n <= 13 || n == 0x20 || n == 0x85 || n == 0xA0 || n == 0x1680
    || 0x2000 <= n <= 0x200A || n == 0x2028 || n == 0x2029 || n == 0x202F
    || n == 0x205F || n == 0x3000
  }

  predicate IsWord(w: string) {
    w != "" && forall i :: 0 <= i < |w| ==> !IsSpace(w[i])
  }

  /** Length of the longest space-free prefix. */
  function WordEnd(s: string): (n: nat)
    ensures n <= |s|
    ensures forall i :: 0 <= i < n ==> !IsSpace(s[i])
    ensures n < |s| ==> IsSpace(s[n])
  {
    if s == [] || IsSpace(s[0]) then 0 else 1 + WordEnd(s[1..])
  }

  /** `strings.Fields`. */
  function Fields(s: string): (ws: seq<string>)
    ensures forall i :: 0 <= i < |ws| ==> IsWord(ws[i])
    decreases |s|
  {
    if s == [] then []
    else if IsSpace(s[0]) then Fields(s[1..])
    else
      var n := WordEnd(s);
      assert !IsSpace(s[0]) && n > 0;
      [s[..n]] + Fields(s[n..])
  }

  function TrimLeft(s: string): string {
    if s != [] && IsSpace(s[0]) then TrimLeft(s[1..]) else s
  }

  function TrimRight(s: string): string {
    if s != [] && IsSpace(s[|s| - 1]) then TrimRight(s[..|s| - 1]) else s
  }

  /** `strings.TrimSpace`. */
  function TrimSpace(s: string): string {
    TrimRight(TrimLeft(s))
  }

  /** `strings.Join(words, " ")`. */
  function Join(ws: seq<string>): string {
    if |ws| == 0 then ""
    else if |ws| == 1 then ws[0]
    else ws[0] + " " + Join(ws[1..])
  }

  /** `cleanOwnerIdentityValue`: surrounding space removed, inner runs of space made one blank. */
  function Clean(s: string): string {
    Join(Fields(TrimSpace(s)))
  }

  /** What a clean string looks like: blanks are the only white space, none at
      either end, no two in a row. */
  predicate IsClean(s: string) {
    && (s != "" ==> !IsSpace(s[0]) && !IsSpace(s[|s| - 1]))
    && (forall i :: 0 <= i < |s| && IsSpace(s[i]) ==> s[i] == ' ')
    && (forall i :: 0 < i < |s| && IsSpace(s[i - 1]) ==> !IsSpace(s[i]))
  }

  lemma {:induction false} WordEndIs(s: string, n: nat)
    requires n <= |s|
    requires forall i :: 0 <= i < n ==> !IsSpace(s[i])
    requires n < |s| ==> IsSpace(s[n])
    ensures WordEnd(s) == n
  {
    var m := WordEnd(s);
    assert !(m < n) && !(n < m);
  }

  lemma {:induction false} FieldsTrimLeft(s: string)
    ensures Fields(TrimLeft(s)) == Fields(s)
    decreases |s|
  {
    if s != [] && IsSpace(s[0]) {
      FieldsTrimLeft(s[1..]);
    }
  }

  lemma {:induction false} DropLastBehindWord(s: string, n: nat)
    requires 0 < n < |s| && n == WordEnd(s)
    ensures Fields(s) == [s[..n]] + Fields(s[n..])
    ensures Fields(s[..|s| - 1]) == [s[..n]] + Fields(s[n..][..|s| - n - 1])
  {
    var t := s[..|s| - 1];
    WordEndIs(t, n);
    assert t[0] == s[0];
    assert t[..n] == s[..n];
    assert t[n..] == s[n..][..|s| - n - 1];
  }

  lemma {:induction false} FieldsDropLastSpace(s: string)
    requires s != [] && IsSpace(s[|s| - 1])
    ensures Fields(s[..|s| - 1]) == Fields(s)
    decreases |s|
  {
    var t := s[..|s| - 1];
    if |s| == 1 {
      assert t == [];
      assert s[1..] == [];
    } else if IsSpace(s[0]) {
      assert t[1..] == s[1..][..|s| - 2];
      FieldsDropLastSpace(s[1..]);
    } else {
      var n := WordEnd(s);
      assert 0 < n < |s|;
      DropLastBehindWord(s, n);
      FieldsDropLastSpace(s[n..]);
    }
  }

  lemma {:induction false} FieldsTrimRight(s: string)
    ensures Fields(TrimRight(s)) == Fields(s)
    decreases |s|
  {
    if s != [] && IsSpace(s[|s| - 1]) {
      FieldsTrimRight(s[..|s| - 1]);
      FieldsDropLastSpace(s);
    }
  }

  predicate AllSpace(s: string) {
    forall i :: 0 <= i < |s| ==> IsSpace(s[i])
  }

  /** Trimming takes the white space off both ends and nothing else. */
  lemma {:induction false} TrimSpaceIs(s: string) returns (before: string, after: string)
    ensures s == before + TrimSpace(s) + after && AllSpace(before) && AllSpace(after)
    ensures TrimSpace(s) != "" ==> !IsSpace(TrimSpace(s)[0]) && !IsSpace(TrimSpace(s)[|TrimSpace(s)| - 1])
  {
    before := TrimLeftIs(s);
    after := TrimRightIs(TrimLeft(s));
    var t := TrimSpace(s);
    assert TrimLeft(s) == t + after;
    assert s == before + (t + after);
    if t != "" { assert TrimLeft(s)[0] == t[0]; }
  }

  lemma {:induction false} TrimLeftIs(s: string) returns (before: string)
    ensures s == before + TrimLeft(s) && AllSpace(before)
    ensures TrimLeft(s) != "" ==> !IsSpace(TrimLeft(s)[0])
    decreases |s|
  {
    before := "";
    if s != [] && IsSpace(s[0]) {
      var rest := TrimLeftIs(s[1..]);
      before := [s[0]] + rest;
      assert s == [s[0]] + s[1..];
    }
  }

  lemma {:induction false} TrimRightIs(s: string) returns (after: string)
    ensures s == TrimRight(s) + after && AllSpace(after)
    ensures TrimRight(s) != "" ==> !IsSpace(TrimRight(s)[|TrimRight(s)| - 1])
    decreases |s|
  {
    after := "";
    if s != [] && IsSpace(s[|s| - 1]) {
      var rest := TrimRightIs(s[..|s| - 1]);
      after := rest + [s[|s| - 1]];
      assert s == s[..|s| - 1] + [s[|s| - 1]];
    }
  }

  lemma {:induction false} CleanIsJoinOfFields(s: string)
    ensures Clean(s) == Join(Fields(s))
  {
    FieldsTrimLeft(s);
    FieldsTrimRight(TrimLeft(s));
  }

  lemma {:induction false} FieldsOfWord(s: string)
    requires s != "" && WordEnd(s) == |s|
    ensures Fields(s) == [s]
  {
    assert s[..|s|] == s && s[|s|..] == [];
    assert !IsSpace(s[0]);
  }

  lemma {:induction false} FieldsOfWordThenBlank(w: string, rest: string)
    requires IsWord(w)
    ensures Fields(w + " " + rest) == [w] + Fields(rest)
  {
    var s := w + " " + rest;
    assert s[|w|] == ' ' && s[0] == w[0];
    WordEndIs(s, |w|);
    assert s[..|w|] == w;
    var t := s[|w|..];
    assert t == " " + rest && t[1..] == rest;
  }

  /** Splitting undoes joining: the words survive the round trip. */
  lemma {:induction false} FieldsOfJoin(ws: seq<string>)
    requires forall i :: 0 <= i < |ws| ==> IsWord(ws[i])
    ensures Fields(Join(ws)) == ws
    decreases |ws|
  {
    if |ws| == 1 {
      WordEndIs(ws[0], |ws[0]|);
      FieldsOfWord(ws[0]);
    } else if |ws| > 1 {
      FieldsOfWordThenBlank(ws[0], Join(ws[1..]));
      FieldsOfJoin(ws[1..]);
      assert ws == [ws[0]] + ws[1..];
    }
  }

  lemma {:induction false} JoinIsClean(ws: seq<string>)
    requires forall i :: 0 <= i < |ws| ==> IsWord(ws[i])
    ensures IsClean(Join(ws))
    ensures |ws| > 0 ==> Join(ws) != ""
    decreases |ws|
  {
    if |ws| > 1 {
      var w, rest := ws[0], Join(ws[1..]);
      assert IsWord(w) && IsWord(ws[1]);
      JoinIsClean(ws[1..]);
      var s := Join(ws);
      assert s == w + " " + rest;
      forall i | 0 < i < |s| && IsSpace(s[i - 1]) ensures !IsSpace(s[i]) {
        if i > |w| + 1 {
          assert s[i - 1] == rest[i - |w| - 2] && s[i] == rest[i - |w| - 1];
        } else if i == |w| + 1 {
          assert s[i] == rest[0];
        }
      }
      forall i | 0 <= i < |s| && IsSpace(s[i]) ensures s[i] == ' ' {
        if i > |w| {
          assert s[i] == rest[i - |w| - 1];
        }
      }
      assert s[|s| - 1] == rest[|rest| - 1];
    } else if |ws| == 1 {
      assert IsWord(ws[0]);
    }
  }

  lemma {:induction false} CleanTail(s: string, n: nat)
    requires IsClean(s) && 0 < n < |s| && IsSpace(s[n])
    ensures n + 1 < |s| && s[n] == ' ' && IsClean(s[n + 1..]) && s[n + 1..] != "" && !IsSpace(s[n + 1])
  {
    var rest := s[n + 1..];
    assert n + 1 < |s| && !IsSpace(s[n + 1]);
    assert forall i :: 0 <= i < |rest| ==> rest[i] == s[n + 1 + i];
    forall i | 0 < i < |rest| && IsSpace(rest[i - 1]) ensures !IsSpace(rest[i]) {
      assert rest[i - 1] == s[n + i];
    }
  }

  lemma {:induction false} FieldsPastWord(s: string, n: nat)
    requires 0 < n < |s| && n == WordEnd(s)
    ensures Fields(s) == [s[..n]] + Fields(s[n + 1..])
  {
    var t := s[n..];
    assert IsSpace(t[0]) && t[1..] == s[n + 1..];
    assert !IsSpace(s[0]);
  }

  lemma {:induction false} JoinPastWord(w: string, ws: seq<string>)
    requires ws != []
    ensures Join([w] + ws) == w + " " + Join(ws)
  {
    assert ([w] + ws)[1..] == ws;
  }

  lemma {:induction false} JoinFieldsPastWord(s: string, n: nat)
    requires 0 < n < |s| && n == WordEnd(s) && s[n] == ' '
    requires Join(Fields(s[n + 1..])) == s[n + 1..] != ""
    ensures Join(Fields(s)) == s
  {
    var rest := s[n + 1..];
    FieldsPastWord(s, n);
    assert Fields(rest) != [];
    JoinPastWord(s[..n], Fields(rest));
    assert s == s[..n] + " " + rest;
  }

  lemma {:induction false} CleanFixesCleanStrings(s: string)
    requires IsClean(s)
    ensures Join(Fields(s)) == s
    decreases |s|
  {
    if s != [] {
      var n := WordEnd(s);
      assert n > 0;
      if n == |s| {
        FieldsOfWord(s);
      } else {
        CleanTail(s, n);
        CleanFixesCleanStrings(s[n + 1..]);
        JoinFieldsPastWord(s, n);
      }
    }
  }

  /** The clean form is a normal form: `Clean` lands in `IsClean`, and a string
      is its own clean form exactly when it is in `IsClean`. */
  lemma {:induction false} CleanNormalForm(s: string)
    ensures IsClean(Clean(s))
    ensures Clean(s) == s <==> IsClean(s)
    ensures Clean(Clean(s)) == Clean(s)
  {
    CleanIsJoinOfFields(s);
    JoinIsClean(Fields(s));
    if IsClean(s) {
      CleanFixesCleanStrings(s);
    }
    var c := Clean(s);
    CleanIsJoinOfFields(c);
    FieldsOfJoin(Fields(s));
  }

  /** Cleaning only touches white space: the words are the same before and after. */
  lemma {:induction false} CleanKeepsWords(s: string)
    ensures Fields(Clean(s)) == Fields(s)
  {
    CleanIsJoinOfFields(s);
    FieldsOfJoin(Fields(s));
  }

  lemma {:induction false} CleanOfEmpty()
    ensures Clean("") == ""
  {
  }

  // ---- string order (Go's `<` on strings) ----

  predicate Less(a: string, b: string) {
    if b == [] then false
    else if a == [] then true
    else a[0] < b[0] || (a[0] == b[0] && Less(a[1..], b[1..]))
  }

  /** Up to `n` the two are equal, and there the first ends or has the smaller character. */
  predicate DiffersAt(a: string, b: string, n: nat) {
    n <= |a| && n < |b| && a[..n] == b[..n] && (n == |a| || a[n] < b[n])
  }

  /** Strings compare at the first place where they differ. */
  lemma {:induction false} LessIs(a: string, b: string)
    ensures Less(a, b) <==> exists n: nat :: DiffersAt(a, b, n)
    decreases |a|
  {
    if b != [] && a == [] {
      assert DiffersAt(a, b, 0);
    } else if b != [] {
      LessIs(a[1..], b[1..]);
      if a[0] < b[0] { assert DiffersAt(a, b, 0); }
      if n: nat :| DiffersAt(a[1..], b[1..], n) {
        assert a[0] == b[0] ==> a[..n + 1] == [a[0]] + a[1..][..n] && b[..n + 1] == [b[0]] + b[1..][..n];
        assert a[0] == b[0] ==> DiffersAt(a, b, n + 1);
      }
      if n: nat :| DiffersAt(a, b, n) {
        if n > 0 {
          assert a[..n][0] == b[..n][0];
          assert a[..n][1..] == a[1..][..n - 1] && b[..n][1..] == b[1..][..n - 1];
          assert DiffersAt(a[1..], b[1..], n - 1);
        }
      }
    }
  }

  lemma {:induction false} LessIrreflexive(a: string)
    ensures !Less(a, a)
    decreases |a|
  {
    if a != [] { LessIrreflexive(a[1..]); }
  }

  lemma {:induction false} LessTransitive(a: string, b: string, c: string)
    requires Less(a, b) && Less(b, c)
    ensures Less(a, c)
    decreases |a|
  {
    if a != [] && a[0] == b[0] && b[0] == c[0] {
      LessTransitive(a[1..], b[1..], c[1..]);
    }
  }

  lemma {:induction false} LessTotal(a: string, b: string)
    ensures Less(a, b) || Less(b, a) || a == b
    decreases |a|
  {
    if a != [] && b != [] && a[0] == b[0] {
      LessTotal(a[1..], b[1..]);
      assert a == [a[0]] + a[1..] && b == [b[0]] + b[1..];
    }
  }

  lemma {:induction false} LessIsStrictTotal()
    ensures forall a: string :: !Less(a, a)
    ensures forall a: string, b: string, c: string :: Less(a, b) && Less(b, c) ==> Less(a, c)
    ensures forall a: string, b: string :: a != b ==> Less(a, b) || Less(b, a)
  {
    forall a: string ensures !Less(a, a) { LessIrreflexive(a); }
    forall a: string, b: string, c: string | Less(a, b) && Less(b, c) ensures Less(a, c) { LessTransitive(a, b, c); }
    forall a: string, b: string | a != b ensures Less(a, b) || Less(b, a) { LessTotal(a, b); }
  }
}
