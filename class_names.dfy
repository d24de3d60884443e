/** Class-name strings of an element: splitting on whitespace as the facade
    does (`String.prototype.split(/\s+/)`), the class list derived from a
    `className` attribute, and adding one class the way `addClass` does. */
module ClassNames {

  /** The characters matched by `\s` in an ECMAScript regular expression:
      tab, line feed, vertical tab, form feed, carriage return, the space
      separators of Unicode category Zs, the line and paragraph separators
      and the byte order mark. */
  predicate IsSpace(c: char) {
    var n := c as int;
    (0x09 <= n <= 0x0D) || n == 0x20 || n == 0xA0 || n == 0x1680 ||
    (0x2000 <= n <= 0x200A) || n == 0x2028 || n == 0x2029 || n == 0x202F ||
    n == 0x205F || n == 0x3000 || n == 0xFEFF
  }

  predicate NoSpace(s: string) {
    forall i :: 0 <= i < |s| ==> !IsSpace(s[i])
  }

  /** A single class name: non-empty and without whitespace. */
  predicate ClassToken(s: string) {
    s != "" && NoSpace(s)
  }

  /** The end of the run of non-whitespace characters of `s` that starts at
      position `i`. */
  function WordEnd(s: string, i: nat): (j: nat)
    requires i <= |s|
    ensures i <= j <= |s|
    ensures forall m :: i <= m < j ==> !IsSpace(s[m])
    ensures j < |s| ==> IsSpace(s[j])
    decreases |s| - i
  {
    if i == |s| || IsSpace(s[i]) then i else WordEnd(s, i + 1)
  }

  /** The end of the run of whitespace of `s` that starts at position `i`. */
  function SpaceEnd(s: string, i: nat): (j: nat)
    requires i <= |s|
    ensures i <= j <= |s|
    ensures forall m :: i <= m < j ==> IsSpace(s[m])
    ensures j < |s| ==> !IsSpace(s[j])
    decreases |s| - i
  {
    if i == |s| || !IsSpace(s[i]) then i else SpaceEnd(s, i + 1)
  }

  /** `s.slice(i).split(/\s+/)`: the word at `i` (empty when `s` has
      whitespace or nothing there), then, when whitespace follows it, the
      pieces after that run of whitespace. */
  function SplitFrom(s: string, i: nat): (r: seq<string>)
    requires i <= |s|
    ensures |r| >= 1
    decreases |s| - i
  {
    var j := WordEnd(s, i);
    if j == |s| then
      [s[i..]]
    else
      [s[i..j]] + SplitFrom(s, SpaceEnd(s, j))
  }

  /** No piece holds whitespace, and only the first and the last piece can
      be empty; the first is empty exactly when there is whitespace or
      nothing at `i`, the last exactly when `s` ends at `i` or with
      whitespace. */
  lemma {:induction false} SplitFromPieces(s: string, i: nat)
    requires i <= |s|
    ensures forall p :: 0 <= p < |SplitFrom(s, i)| ==> NoSpace(SplitFrom(s, i)[p])
    ensures forall p :: 0 < p < |SplitFrom(s, i)| - 1 ==> SplitFrom(s, i)[p] != ""
    ensures SplitFrom(s, i)[0] == "" <==> (i == |s| || IsSpace(s[i]))
    ensures SplitFrom(s, i)[|SplitFrom(s, i)| - 1] == "" <==> (i == |s| || IsSpace(s[|s| - 1]))
    decreases |s| - i
  {
    var j := WordEnd(s, i);
    if j == |s| {
      SplitFromLast(s, i);
      assert NoSpace(s[i..]);
    } else {
      var e := SpaceEnd(s, j);
      SplitFromPieces(s, e);
      SplitFromStep(s, i);
      var r, rt := SplitFrom(s, i), SplitFrom(s, e);
      assert NoSpace(s[i..j]);
      assert e == |s| ==> IsSpace(s[|s| - 1]);
      assert e < |s| ==> rt[0] != "";
      assert e == |s| ==> |rt| == 1 by {
        if e == |s| {
          SplitFromLast(s, e);
        }
      }
      forall p | 0 < p < |r| ensures r[p] == rt[p - 1] {
      }
    }
  }

  /** `s.split(/\s+/)`: maximal runs of whitespace separate the pieces, so
      no piece holds whitespace and only the first and the last piece can be
      empty.  The first is empty exactly when `s` is empty or starts with
      whitespace, the last exactly when `s` is empty or ends with
      whitespace, and the empty string splits into `[""]`. */
  function Split(s: string): (r: seq<string>)
    ensures |r| >= 1
    ensures forall i :: 0 <= i < |r| ==> NoSpace(r[i])
    ensures forall i :: 0 < i < |r| - 1 ==> r[i] != ""
    ensures r[0] == "" <==> (s == [] || IsSpace(s[0]))
    ensures r[|r| - 1] == "" <==> (s == [] || IsSpace(s[|s| - 1]))
    ensures NoSpace(s) ==> r == [s]
  {
    assert NoSpace(s) ==> WordEnd(s, 0) == |s|;
    assert s[0..] == s;
    SplitFromPieces(s, 0);
    SplitFrom(s, 0)
  }

  /** A non-empty run of whitespace. */
  predicate SpaceRun(t: string) {
    t != [] && forall i :: 0 <= i < |t| ==> IsSpace(t[i])
  }

  /** `r[0] + seps[0] + r[1] + ... + seps[|r|-2] + r[|r|-1]`. */
  function Interleave(r: seq<string>, seps: seq<string>): (s: string)
    requires |r| == |seps| + 1
    decreases |seps|
  {
    if seps == [] then r[0] else r[0] + seps[0] + Interleave(r[1..], seps[1..])
  }

  /** The runs of whitespace that `SplitFrom(s, i)` cuts out, in order. */
  function SepsFrom(s: string, i: nat): (seps: seq<string>)
    requires i <= |s|
    decreases |s| - i
  {
    var j := WordEnd(s, i);
    if j == |s| then [] else [s[j..SpaceEnd(s, j)]] + SepsFrom(s, SpaceEnd(s, j))
  }

  /** The runs of whitespace that `Split(s)` cuts out, in order. */
  function Seps(s: string): (seps: seq<string>) {
    SepsFrom(s, 0)
  }

  /** Three adjacent slices make up the text from the first position on. */
  lemma Slices(s: string, i: nat, j: nat, e: nat)
    requires i <= j <= e <= |s|
    ensures s[i..] == s[i..j] + s[j..e] + s[e..]
  {
  }

  /** `Interleave` of one more piece and one more run. */
  lemma InterleaveCons(w: string, sep: string, r: seq<string>, ss: seq<string>)
    requires |r| == |ss| + 1
    ensures Interleave([w] + r, [sep] + ss) == w + sep + Interleave(r, ss)
  {
    assert ([w] + r)[1..] == r;
    assert ([sep] + ss)[1..] == ss;
  }

  /** One step of `SepsFrom`, as `SplitFromStep` is one of `SplitFrom`. */
  lemma SepsFromStep(s: string, i: nat)
    requires i <= |s|
    ensures var j := WordEnd(s, i);
      SepsFrom(s, i) == if j == |s| then [] else [s[j..SpaceEnd(s, j)]] + SepsFrom(s, SpaceEnd(s, j))
  {
  }

  /** There is one run fewer than pieces, and every run is whitespace. */
  lemma {:induction false} SepsFromRuns(s: string, i: nat)
    requires i <= |s|
    ensures |SepsFrom(s, i)| == |SplitFrom(s, i)| - 1
    ensures forall p :: 0 <= p < |SepsFrom(s, i)| ==> SpaceRun(SepsFrom(s, i)[p])
    decreases |s| - i
  {
    var j := WordEnd(s, i);
    SepsFromStep(s, i);
    if j < |s| {
      var e := SpaceEnd(s, j);
      SepsFromRuns(s, e);
      SplitFromStep(s, i);
      var ss := SepsFrom(s, e);
      assert SpaceRun(s[j..e]);
      forall p | 0 < p < |SepsFrom(s, i)| ensures SepsFrom(s, i)[p] == ss[p - 1] {
      }
    } else {
      SplitFromLast(s, i);
    }
  }

  /** Putting the runs back between the pieces gives the text from `i` on. */
  lemma {:induction false} SplitFromContent(s: string, i: nat)
    requires i <= |s|
    ensures |SepsFrom(s, i)| == |SplitFrom(s, i)| - 1
    ensures Interleave(SplitFrom(s, i), SepsFrom(s, i)) == s[i..]
    decreases |s| - i
  {
    SepsFromRuns(s, i);
    var j := WordEnd(s, i);
    SepsFromStep(s, i);
    if j < |s| {
      var e := SpaceEnd(s, j);
      SplitFromContent(s, e);
      SplitFromStep(s, i);
      InterleaveCons(s[i..j], s[j..e], SplitFrom(s, e), SepsFrom(s, e));
      Slices(s, i, j, e);
    } else {
      SplitFromLast(s, i);
    }
  }

  /** The pieces of `Split(s)` are the text of `s` between its maximal runs
      of whitespace: there is one run fewer than pieces, each run is
      whitespace, and putting the runs back between the pieces gives `s`
      again. */
  lemma SplitContent(s: string)
    ensures |Seps(s)| == |Split(s)| - 1
    ensures forall i :: 0 <= i < |Seps(s)| ==> SpaceRun(Seps(s)[i])
    ensures Interleave(Split(s), Seps(s)) == s
  {
    SepsFromRuns(s, 0);
    SplitFromContent(s, 0);
    assert s[0..] == s;
  }

  /** The pieces of `ts` that are not empty, in order. */
  function NonEmpty(ts: seq<string>): (r: seq<string>) {
    if ts == [] then []
    else if ts[0] == "" then NonEmpty(ts[1..])
    else [ts[0]] + NonEmpty(ts[1..])
  }

  /** `NonEmpty` keeps exactly the non-empty pieces. */
  lemma {:induction false} NonEmptyMembers(ts: seq<string>)
    ensures forall t :: t in NonEmpty(ts) <==> t in ts && t != ""
  {
    if ts != [] {
      NonEmptyMembers(ts[1..]);
      assert forall t :: t in ts <==> t == ts[0] || t in ts[1..];
    }
  }

  /** A list without empty pieces is left as it is. */
  lemma {:induction false} NonEmptyKeeps(ts: seq<string>)
    requires forall i :: 0 <= i < |ts| ==> ts[i] != ""
    ensures NonEmpty(ts) == ts
  {
    if ts != [] {
      NonEmptyKeeps(ts[1..]);
      assert [ts[0]] + ts[1..] == ts;
    }
  }

  /** The class list of an element whose `className` attribute is `s`. */
  function Words(s: string): (r: seq<string>) {
    NonEmpty(Split(s))
  }

  /** The class list holds class names only, and exactly the non-empty
      pieces of the split attribute. */
  lemma WordsMembers(s: string)
    ensures forall i :: 0 <= i < |Words(s)| ==> ClassToken(Words(s)[i])
    ensures forall t :: t in Words(s) <==> t in Split(s) && t != ""
  {
    var ts, r := Split(s), Words(s);
    NonEmptyMembers(ts);
    assert forall i :: 0 <= i < |r| ==> r[i] in r;
    assert forall t :: t in ts ==> exists i :: 0 <= i < |ts| && ts[i] == t;
  }

  /** The names of `ws` separated by single spaces. */
  function Join(ws: seq<string>): (r: string) {
    if ws == [] then ""
    else if |ws| == 1 then ws[0]
    else ws[0] + " " + Join(ws[1..])
  }

  predicate AllTokens(ws: seq<string>) {
    forall i :: 0 <= i < |ws| ==> ClassToken(ws[i])
  }

  /** The first piece of a joined list begins with the first name. */
  lemma {:induction false} JoinStartsWith(ws: seq<string>)
    requires ws != [] && AllTokens(ws)
    ensures |Join(ws)| >= |ws[0]| && Join(ws)[..|ws[0]|] == ws[0]
    ensures Join(ws) != [] && !IsSpace(Join(ws)[0])
  {
    if |ws| > 1 {
      assert Join(ws) == ws[0] + (" " + Join(ws[1..]));
    }
    assert Join(ws)[0] == ws[0][0];
  }

  /** A position that ends a run of non-whitespace from `i` is `WordEnd`. */
  lemma {:induction false} WordEndIs(s: string, i: nat, k: nat)
    requires i <= k <= |s|
    requires forall m :: i <= m < k ==> !IsSpace(s[m])
    requires k < |s| ==> IsSpace(s[k])
    ensures WordEnd(s, i) == k
    decreases k - i
  {
    if i < k {
      WordEndIs(s, i + 1, k);
    }
  }

  /** A position that ends a run of whitespace from `i` is `SpaceEnd`. */
  lemma {:induction false} SpaceEndIs(s: string, i: nat, k: nat)
    requires i <= k <= |s|
    requires forall m :: i <= m < k ==> IsSpace(s[m])
    requires k < |s| ==> !IsSpace(s[k])
    ensures SpaceEnd(s, i) == k
    decreases k - i
  {
    if i < k {
      SpaceEndIs(s, i + 1, k);
    }
  }

  /** One step of `SplitFrom`: the word at `i`, then the pieces after the
      whitespace that follows it. */
  lemma SplitFromStep(s: string, i: nat)
    requires i <= |s| && WordEnd(s, i) < |s|
    ensures SplitFrom(s, i) == [s[i..WordEnd(s, i)]] + SplitFrom(s, SpaceEnd(s, WordEnd(s, i)))
  {
  }

  /** The last step of `SplitFrom`: no whitespace from `i` on. */
  lemma SplitFromLast(s: string, i: nat)
    requires i <= |s| && WordEnd(s, i) == |s|
    ensures SplitFrom(s, i) == [s[i..]]
  {
  }

  /** `SplitFromStep` with the ends of the word and of the whitespace after
      it given by name. */
  lemma SplitFromStepAt(s: string, i: nat, j: nat, e: nat)
    requires i <= |s| && j == WordEnd(s, i) && j < |s| && e == SpaceEnd(s, j)
    ensures SplitFrom(s, i) == [s[i..j]] + SplitFrom(s, e)
  {
    SplitFromStep(s, i);
  }

  /** `s` ends with `y`, which starts at position `d`. */
  predicate EndsWith(s: string, d: nat, y: string) {
    |s| == d + |y| && forall k :: d <= k < |s| ==> s[k] == y[k - d]
  }

  /** The runs of `s` from position `i` are the runs of its tail `y` from
      the same place `m`, moved along by `d`. */
  lemma ShiftEnds(s: string, d: nat, y: string, i: nat, m: nat)
    requires EndsWith(s, d, y) && m <= |y| && i == d + m
    ensures WordEnd(s, i) == d + WordEnd(y, m)
    ensures SpaceEnd(s, i) == d + SpaceEnd(y, m)
  {
    WordEndIs(s, i, d + WordEnd(y, m));
    SpaceEndIs(s, i, d + SpaceEnd(y, m));
  }

  /** The word of `s` at `i` and the whitespace after it are those of its
      tail `y` at `m`, moved along by `d`. */
  lemma WordShift(s: string, d: nat, y: string, i: nat, j: nat, e: nat, m: nat, j': nat, e': nat)
    requires EndsWith(s, d, y) && i == d + m && j == d + j' && e == d + e'
    requires m <= |y| && j' == WordEnd(y, m) && j' < |y| && e' == SpaceEnd(y, j')
    ensures j == WordEnd(s, i) && e == SpaceEnd(s, j) && s[i..j] == y[m..j']
  {
    ShiftEnds(s, d, y, i, m);
    ShiftEnds(s, d, y, j, j');
    SliceShift(s, d, y, i, j, m, j');
  }

  /** A slice of the tail `y` of `s` is the same slice of `s`, moved along
      by `d`. */
  lemma SliceShift(s: string, d: nat, y: string, i: nat, j: nat, m: nat, j': nat)
    requires EndsWith(s, d, y) && i == d + m && j == d + j' && m <= j' <= |y|
    ensures s[i..j] == y[m..j']
  {
    assert forall q :: 0 <= q < j' - m ==> s[i..j][q] == s[d + m + q];
  }

  /** The step of `SplitFromShift`: when the word at `i` of `s` is the word
      at `m` of `y`, and the pieces after the next runs of whitespace agree,
      so do the pieces from `i` and `m`. */
  lemma ShiftStep(s: string, i: nat, j: nat, e: nat, y: string, m: nat, j': nat, e': nat)
    requires i <= |s| && j == WordEnd(s, i) && j < |s| && e == SpaceEnd(s, j)
    requires m <= |y| && j' == WordEnd(y, m) && j' < |y| && e' == SpaceEnd(y, j')
    requires s[i..j] == y[m..j'] && SplitFrom(s, e) == SplitFrom(y, e')
    ensures SplitFrom(s, i) == SplitFrom(y, m)
  {
    SplitFromStepAt(s, i, j, e);
    SplitFromStepAt(y, m, j', e');
  }

  /** The last piece of `SplitFromShift`. */
  lemma ShiftLast(s: string, d: nat, y: string, i: nat, m: nat)
    requires EndsWith(s, d, y) && m <= |y| && i == d + m && WordEnd(y, m) == |y|
    ensures SplitFrom(s, i) == SplitFrom(y, m)
  {
    ShiftEnds(s, d, y, i, m);
    SplitFromLast(y, m);
    SplitFromLast(s, i);
    assert s[i..] == y[m..];
  }

  /** Splitting `s` from position `i` is splitting its tail `y`, which
      starts at `d`, from the same place `m`. */
  lemma {:induction false} SplitFromShift(s: string, d: nat, y: string, i: nat, m: nat)
    requires EndsWith(s, d, y) && m <= |y| && i == d + m
    ensures SplitFrom(s, i) == SplitFrom(y, m)
    decreases |y| - m
  {
    var j' := WordEnd(y, m);
    if j' < |y| {
      var e' := SpaceEnd(y, j');
      var j, e := d + j', d + e';
      SplitFromShift(s, d, y, e, e');
      WordShift(s, d, y, i, j, e, m, j', e');
      ShiftStep(s, i, j, e, y, m, j', e');
    } else {
      ShiftLast(s, d, y, i, m);
    }
  }

  /** The word at the start of `w + " " + j` is `w`, and a single space
      follows it. */
  lemma WordThenSpace(w: string, j: string)
    requires NoSpace(w) && j != [] && !IsSpace(j[0])
    ensures var s := w + " " + j;
      WordEnd(s, 0) == |w| && SpaceEnd(s, |w|) == |w| + 1 && s[0..|w|] == w
  {
    var s := w + " " + j;
    assert forall q :: 0 <= q < |w| ==> s[q] == w[q];
    assert s[|w|] == ' ' && s[|w| + 1] == j[0];
    WordEndIs(s, 0, |w|);
    SpaceEndIs(s, |w|, |w| + 1);
  }

  /** Splitting a word, one space and a text that starts with no space. */
  lemma SplitAfterWord(w: string, j: string)
    requires NoSpace(w) && j != [] && !IsSpace(j[0])
    ensures Split(w + " " + j) == [w] + Split(j)
  {
    var s := w + " " + j;
    WordThenSpace(w, j);
    SplitFromStep(s, 0);
    assert EndsWith(s, |w| + 1, j);
    SplitFromShift(s, |w| + 1, j, |w| + 1, 0);
  }

  /** Splitting undoes joining a non-empty list of class names. */
  lemma {:induction false} SplitJoin(ws: seq<string>)
    requires ws != [] && AllTokens(ws)
    ensures Split(Join(ws)) == ws
  {
    if |ws| > 1 {
      assert AllTokens(ws[1..]) by {
        forall i | 0 <= i < |ws| - 1 ensures ClassToken(ws[1..][i]) {
          assert ws[1..][i] == ws[i + 1];
        }
      }
      assert ClassToken(ws[0]);
      assert Join(ws) == ws[0] + " " + Join(ws[1..]);
      JoinStartsWith(ws[1..]);
      SplitAfterWord(ws[0], Join(ws[1..]));
      SplitJoin(ws[1..]);
      assert [ws[0]] + ws[1..] == ws;
    }
  }

  /** The class list of a joined list of class names is that list. */
  lemma WordsJoin(ws: seq<string>)
    requires AllTokens(ws)
    ensures Words(Join(ws)) == ws
  {
    if ws != [] {
      SplitJoin(ws);
      NonEmptyKeeps(ws);
    } else {
      assert Split("") == [""];
      assert [""][1..] == [];
    }
  }

  /** `hasClass`: `c` is one of the element's classes. */
  predicate HasClass(className: string, c: string): (b: bool)
    ensures b <==> c != "" && c in Split(className)
  {
    WordsMembers(className);
    c in Words(className)
  }

  /** The `className` after `addClass(c)`.  A class already present leaves
      the attribute as it was; otherwise the attribute is rewritten as the
      class list with `c` appended, single-space separated.  A value that is
      not a single class name (the empty string, for one) changes nothing. */
  function AddClass(className: string, c: string): (r: string)
    ensures r == className <==> !ClassToken(c) || HasClass(className, c)
  {
    if !ClassToken(c) || HasClass(className, c) then className
    else
      var ws := Words(className);
      WordsMembers(className);
      WordsJoin(ws + [c]);
      assert |Words(Join(ws + [c]))| != |ws|;
      Join(ws + [c])
  }

  /** After `addClass(c)` the class list is the old one with `c` appended
      when it was missing, and unchanged when it was there. */
  lemma AddClassWords(className: string, c: string)
    requires ClassToken(c)
    ensures Words(AddClass(className, c)) ==
      if HasClass(className, c) then Words(className) else Words(className) + [c]
  {
    if !HasClass(className, c) {
      WordsMembers(className);
      WordsJoin(Words(className) + [c]);
    }
  }
}
