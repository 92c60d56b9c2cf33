/**
 us_simplify_request_path: one pass over the request path that writes the simplified path
 into a second buffer.  Its result is stated for every path, and compared with a
 component-stack normaliser: they agree on all absolute paths and on exactly those relative
 ones that are not `Awkward`.
 */
module RequestPath {
  import opened Common

  const NUL := '\0'

  /** The character a C string has at i. */
  function At(s: string, i: nat): char {
    if i < |s| then s[i] else NUL
  }

  // ---------------------------------------------------------------- what is skipped first

  function SkipSpaces(s: string): (n: nat)
    ensures n <= |s|
  {
    if s != [] && s[0] == ' ' then 1 + SkipSpaces(s[1..]) else 0
  }

  /** Characters of one leading "." or ".." component. */
  function SkipDots(s: string): (n: nat)
    ensures n <= |s|
  {
    if At(s, 0) != '.' then 0
    else if At(s, 1) == '/' || At(s, 1) == NUL then 1
    else if At(s, 1) == '.' && (At(s, 2) == '/' || At(s, 2) == NUL) then 2
    else 0
  }

  /** The part of the path the main loop works on. */
  function Body(s: string): string {
    var t := s[SkipSpaces(s)..];
    t[SkipDots(t)..]
  }

  /** Where a component has just ended. */
  predicate Boundary(r: string) {
    r == "" || r[0] == '/'
  }

  lemma DotsFound(r: string)
    requires NUL !in r && Boundary(r)
    ensures SkipDots("." + r) == 1 && SkipDots(".." + r) == 2
  {
    assert At("." + r, 1) == At(r, 0) && At(".." + r, 2) == At(r, 0);
  }

  lemma DotsBefore(t: string, r: string)
    requires NUL !in r && Boundary(r)
    ensures t == "." + r || t == ".." + r ==> t[SkipDots(t)..] == r
  {
    DotsFound(r);
  }

  lemma DotsSkipped(t: string)
    requires NUL !in t
    ensures var r := t[SkipDots(t)..]; t == r || (Boundary(r) && (t == "." + r || t == ".." + r))
  {
    if SkipDots(t) == 1 {
      assert t == "." + t[1..] && At(t, 1) == At(t[1..], 0);
    } else if SkipDots(t) == 2 {
      assert t == ".." + t[2..] && At(t, 2) == At(t[2..], 0);
    }
  }

  /**
   What is skipped: all leading spaces and then, if r is what follows a first component "." or
   "..", that component; and nothing else.
   */
  lemma SkippedExactly(s: string, r: string)
    requires NUL !in s && NUL !in r && Boundary(r)
    ensures var n := SkipSpaces(s); (forall i | 0 <= i < n :: s[i] == ' ') && (n < |s| ==> s[n] != ' ')
    ensures var n := SkipSpaces(s);
      && (s[n..] == "." + r || s[n..] == ".." + r ==> Body(s) == r)
      && (Body(s) == s[n..] || (Boundary(Body(s)) && (s[n..] == "." + Body(s) || s[n..] == ".." + Body(s))))
  {
    SpacesOnly(s);
    var t := s[SkipSpaces(s)..];
    assert NUL !in t;
    DotsSkipped(t);
    DotsBefore(t, r);
    assert Body(s) == t[SkipDots(t)..];
  }

  lemma {:induction false} SpacesOnly(s: string)
    ensures var n := SkipSpaces(s); (forall i | 0 <= i < n :: s[i] == ' ') && (n < |s| ==> s[n] != ' ')
  {
    if s != [] && s[0] == ' ' {
      SpacesOnly(s[1..]);
      var n := SkipSpaces(s);
      assert forall i | 1 <= i < |s| :: s[i] == s[1..][i - 1];
    }
  }

  // ---------------------------------------------------------------- the specification

  predicate Absolute(p: string) {
    p != [] && p[0] == '/'
  }

  function Front<T>(s: seq<T>): seq<T>
    requires s != []
  {
    s[..|s| - 1]
  }

  function Last<T>(s: seq<T>): T
    requires s != []
  {
    s[|s| - 1]
  }

  lemma FrontLast<T>(s: seq<T>)
    requires s != []
    ensures s == Front(s) + [Last(s)]
  {
  }

  /** The components of a path, each with the '/' in front of it; a relative path starts with a bare one. */
  function Tokens(p: string): (ts: seq<string>)
    ensures p != "" ==> ts != []
  {
    if p == "" then []
    else
      var front, c := Tokens(Front(p)), Last(p);
      if c == '/' || front == [] then front + [[c]] else Front(front) + [Last(front) + [c]]
  }

  /** An empty or "." component. */
  predicate Skipped(t: string) {
    t == "/" || t == "/."
  }

  /** A component that names a directory: the path then ends with a '/'. */
  predicate Directory(t: string) {
    Skipped(t) || t == "/.."
  }

  function Pop(stack: seq<string>): seq<string> {
    if stack == [] then [] else Front(stack)
  }

  /** One component on the stack of directories. */
  function Push(stack: seq<string>, t: string): seq<string> {
    if t == "/.." then Pop(stack) else if Skipped(t) then stack else stack + [t]
  }

  function Fold(ts: seq<string>): seq<string> {
    if ts == [] then [] else Push(Fold(Front(ts)), Last(ts))
  }

  function Joined(ts: seq<string>): string {
    if ts == [] then "" else Joined(Front(ts)) + Last(ts)
  }

  /** Drop empty and "." components, let ".." pop, and keep a final '/' where the path named a directory. */
  function Normalise(p: string): string {
    if p == "" then ""
    else Joined(Fold(Tokens(p))) + (if Directory(Last(Tokens(p))) then "/" else "")
  }

  // ---------------------------------------------------------------- what the code computes

  /** The code drops every token of one character: an empty component, but a bare first letter too. */
  predicate Dropped(t: string) {
    |t| == 1 || t == "/."
  }

  function CodePush(stack: seq<string>, t: string): seq<string> {
    if t == "/.." then Pop(stack) else if Dropped(t) then stack else stack + [t]
  }

  function CodeFold(ts: seq<string>): seq<string> {
    if ts == [] then [] else CodePush(CodeFold(Front(ts)), Last(ts))
  }

  /** The character that stays behind when the last token t goes: the first one of what was removed. */
  function Edge(stack: seq<string>, t: string): string {
    if t == "/.." && stack != [] then First(Last(stack)) else First(t)
  }

  function First(t: string): string {
    if t == "" then "" else [t[0]]
  }

  function Stack(p: string): seq<string>
    requires p != ""
  {
    CodeFold(Front(Tokens(p)))
  }

  /** The buffer when the last token of p is complete but not judged yet. */
  function Open(p: string): string
    requires p != ""
  {
    Joined(Stack(p)) + Last(Tokens(p))
  }

  function Result(p: string): string {
    if p == "" then ""
    else
      var s, t := Stack(p), Last(Tokens(p));
      Joined(CodePush(s, t)) + if t == "/.." || Dropped(t) then Edge(s, t) else ""
  }

  // ---------------------------------------------------------------- tokens and stacks

  predicate NoSlash(c: string) {
    '/' !in c
  }

  /** A token has a slash at most in front. */
  predicate IsToken(t: string) {
    t != "" && NoSlash(t[1..])
  }

  /** Tokens that spell a path: all but the first start with a slash. */
  predicate Spells(ts: seq<string>) {
    forall i | 0 <= i < |ts| :: IsToken(ts[i]) && (i > 0 ==> ts[i][0] == '/')
  }

  lemma {:induction false} TokensSpell(p: string)
    ensures Spells(Tokens(p)) && (p != "" ==> Tokens(p)[0][0] == p[0])
  {
    if p != "" {
      TokensSpell(Front(p));
      var front, c := Tokens(Front(p)), Last(p);
      if c != '/' && front != [] {
        LongerToken(Last(front), c);
      }
    }
  }

  lemma LongerToken(t: string, c: char)
    requires IsToken(t) && c != '/'
    ensures IsToken(t + [c]) && (t + [c])[0] == t[0]
  {
    assert (t + [c])[1..] == t[1..] + [c];
  }

  lemma {:induction false} TokensJoin(p: string)
    ensures Joined(Tokens(p)) == p
  {
    if p != "" {
      TokensJoin(Front(p));
      FrontLast(p);
      var front, c := Tokens(Front(p)), Last(p);
      if c == '/' || front == [] {
        assert Front(front + [[c]]) == front;
      } else {
        assert Front(Front(front) + [Last(front) + [c]]) == Front(front);
        Associate(Joined(Front(front)), Last(front), [c]);
      }
    }
  }

  /** What a stack of the code can hold: tokens that spell, none of them of one character. */
  ghost predicate GoodStack(stack: seq<string>) {
    Spells(stack) && forall i | 0 <= i < |stack| :: |stack[i]| > 1
  }

  lemma {:induction false} CodeFoldGood(ts: seq<string>)
    requires Spells(ts)
    ensures GoodStack(CodeFold(ts))
  {
    if ts != [] {
      CodeFoldGood(Front(ts));
      if |ts| == 1 {
        assert CodeFold(Front(ts)) == [];
      }
    }
  }

  // ---------------------------------------------------------------- the buffer in step with the path

  lemma OpenFirst(c: char)
    ensures Tokens([c]) == [[c]] && Open([c]) == [c] && Stack([c]) == []
  {
    assert Front([c]) == "";
    assert Tokens([c]) == [] + [[c]];
  }

  /** Writing one more character of a token. */
  lemma OpenStep(p: string, c: char)
    requires p != "" && c != '/'
    ensures Open(p + [c]) == Open(p) + [c] && Stack(p + [c]) == Stack(p)
  {
    var ts := Tokens(p);
    assert Front(p + [c]) == p;
    assert Front(Front(ts) + [Last(ts) + [c]]) == Front(ts);
    Associate(Joined(Stack(p)), Last(ts), [c]);
  }

  /** Starting a new token. */
  lemma OpenSlash(p: string)
    requires p != ""
    ensures Open(p + ['/']) == Joined(CodeFold(Tokens(p))) + "/" && Stack(p + ['/']) == CodeFold(Tokens(p))
  {
    var ts := Tokens(p);
    assert Front(p + ['/']) == p;
    assert Front(ts + ["/"]) == ts;
  }

  /** The last token is the end of the path. */
  lemma TokenTail(p: string)
    requires p != ""
    ensures var t := Last(Tokens(p)); IsToken(t) && |t| <= |p| && p[|p| - |t|..] == t
  {
    TokensSpell(p);
    TokensJoin(p);
    var ts := Tokens(p);
    assert p == Joined(Front(ts)) + Last(ts);
  }

  /** What the tests on toklen, pre1, pre2 and *slash decide. */
  lemma TokenTests(p: string, pre1: char, pre2: char)
    requires p != "" && pre1 == Last(p) && (|p| > 1 ==> pre2 == p[|p| - 2])
    ensures var t := Last(Tokens(p));
      && t != ""
      && ((|t| == 3 && pre2 == '.' && pre1 == '.' && t[0] == '/') <==> t == "/..")
      && (|t| == 1 || (|p| > 1 && pre2 == '/' && pre1 == '.') <==> Dropped(t))
  {
    TokenTail(p);
    var t := Last(Tokens(p));
    assert pre1 == t[|t| - 1];
    if |t| > 1 {
      assert pre2 == t[|t| - 2];
      assert |t| > 2 ==> t[1..][|t| - 3] == pre2;
    }
  }

  // ---------------------------------------------------------------- the code

  /** A slash inside the last token of base + last is its first character. */
  lemma TokenStart(base: string, last: string, k: nat)
    requires IsToken(last) && |base| <= k < |base + last| && (base + last)[k] == '/'
    ensures k == |base|
  {
    var i := k - |base|;
    assert (base + last)[k] == last[i];
    assert forall j | 1 <= j < |last| :: last[j] == last[1..][j - 1];
  }

  /** Walks back over the last token of the stack: the new end of the path. */
  method PopComponent(buf: array<char>, end: nat, ghost stack: seq<string>) returns (out: nat)
    requires end <= buf.Length && GoodStack(stack) && buf[..end] == Joined(stack)
    ensures out <= end && buf[..out] == Joined(Pop(stack))
    ensures stack != [] ==> out < end && buf[out] == Last(stack)[0]
  {
    out := end;
    if out > 0 {
      out := out - 1;
      ghost var base, last := Joined(Front(stack)), Last(stack);
      assert buf[..end] == base + last && IsToken(last);
      BaseEmpty(stack);
      while out > 0 && buf[out] != '/'
        invariant |base| <= out < end
      {
        assert buf[out] == buf[..end][out];
        assert buf[..end][|base|] == last[0];
        out := out - 1;
      }
      assert buf[out] == buf[..end][out];
      if out > 0 {
        TokenStart(base, last, out);
      }
      assert buf[..out] == buf[..end][..out] == base;
    }
  }

  /** What is left under the last token is empty, or the token starts with a slash. */
  lemma BaseEmpty(stack: seq<string>)
    requires GoodStack(stack) && stack != []
    ensures Joined(Front(stack)) == "" || Last(stack)[0] == '/'
  {
    if |stack| == 1 {
      assert Front(stack) == [];
    }
  }

  /** The end of a token, with ch the '/' or NUL behind it: the new end of the text. */
  method CloseToken(buf: array<char>, end: nat, slash: nat, pre1: char, pre2: char, atEnd: bool, ghost p: string)
      returns (out: nat)
    requires slash < end <= buf.Length && p != ""
    requires pre1 == Last(p) && pre2 == (if |p| == 1 then NUL else p[|p| - 2])
    requires buf[..end] == Open(p) && slash == |Joined(Stack(p))|
    ensures out <= end
    ensures buf[..out] == if atEnd then Result(p) else Joined(CodeFold(Tokens(p)))
  {
    var toklen := end - slash;
    out := end;
    ghost var s, t := Stack(p), Last(Tokens(p));
    TokenTests(p, pre1, pre2);
    TokensSpell(p);
    CodeFoldGood(Front(Tokens(p)));
    assert buf[..slash] == buf[..end][..slash] == Joined(s);
    assert buf[slash] == buf[..end][slash] == t[0];
    if toklen == 3 && pre2 == '.' && pre1 == '.' && buf[slash] == '/' {
      out := PopComponent(buf, slash, s);
      assert buf[..out + 1] == buf[..out] + [buf[out]];
      if atEnd {
        out := out + 1;
      }
    } else if toklen == 1 || (pre2 == '/' && pre1 == '.') {
      out := slash;
      assert buf[..out + 1] == buf[..out] + [buf[out]];
      if atEnd {
        out := out + 1;
      }
    } else {
      assert Front(s + [t]) == s;
    }
  }

  /** The buffer and the two cursors between two rounds of the loop, k characters into the path. */
  ghost predicate InStep(r: string, k: nat, text: string, slash: nat)
    requires k <= |r|
  {
    if k == 0 then text == "" && slash == 0
    else
      var p := r[..k];
      if k == |r| then text == Result(r)
      else if r[k] == '/' then text == Joined(CodeFold(Tokens(p))) && slash == |text|
      else text == Open(p) && slash == |Joined(Stack(p))|
  }

  /** After writing the next character the buffer shows the open token. */
  lemma WriteStep(r: string, k: nat, text: string, slash: nat)
    requires k < |r| && InStep(r, k, text, slash)
    ensures text + [r[k]] == Open(r[..k + 1]) && slash == |Joined(Stack(r[..k + 1]))|
  {
    assert r[..k + 1] == r[..k] + [r[k]];
    if k == 0 {
      OpenFirst(r[0]);
      assert r[..1] == [r[0]];
    } else if r[k] == '/' {
      OpenSlash(r[..k]);
    } else {
      OpenStep(r[..k], r[k]);
    }
  }

  /** Character k has just been written; if it ends a token, the token is judged. */
  method AfterWrite(buf: array<char>, end: nat, slash: nat, pre1: char, pre2: char, ch: char, ghost r: string, ghost k: nat)
      returns (out: nat, slash': nat)
    requires k < |r| && NUL !in r && slash < end <= k + 1 && end <= buf.Length
    requires InStep(r, k, buf[..end - 1], slash) && buf[end - 1] == pre1 == r[k]
    requires pre2 == (if k == 0 then NUL else r[k - 1]) && ch == At(r, k + 1)
    ensures slash' <= out <= end && InStep(r, k + 1, buf[..out], slash')
  {
    WriteStep(r, k, buf[..end - 1], slash);
    assert buf[..end] == buf[..end - 1] + [r[k]];
    out, slash' := end, slash;
    if ch == '/' || ch == NUL {
      ghost var p := r[..k + 1];
      assert k + 1 == |r| ==> p == r;
      out := CloseToken(buf, end, slash, pre1, pre2, ch == NUL, p);
      slash' := out;
    }
  }

  /** The main loop: the output never overtakes the input. */
  method SimplifyBody(buf: array<char>, r: string) returns (out: nat)
    requires NUL !in r && |r| < buf.Length
    modifies buf
    ensures out <= |r| && buf[..out] == Result(r)
  {
    out := 0;
    var k, slash, pre1, ch := 0, 0, NUL, At(r, 0);
    while ch != NUL
      invariant 0 <= slash <= out <= k <= |r| && ch == At(r, k)
      invariant pre1 == if k == 0 then NUL else r[k - 1]
      invariant InStep(r, k, buf[..out], slash)
      decreases |r| - k
    {
      var pre2 := pre1;
      pre1 := ch;
      ghost var before := buf[..out];
      ch := At(r, k + 1);
      buf[out] := pre1;
      assert buf[..out] == before;
      out, slash := AfterWrite(buf, out + 1, slash, pre1, pre2, ch, r, k);
      k := k + 1;
    }
    assert r[..|r|] == r;
  }

  /** The leading spaces and one leading "." or "..". */
  method SkipPrefix(str: string) returns (at: nat)
    ensures at <= |str| && str[at..] == Body(str)
  {
    at := 0;
    while At(str, at) == ' '
      invariant at <= |str| && SkipSpaces(str) == at + SkipSpaces(str[at..])
      decreases |str| - at
    {
      assert str[at..][1..] == str[at + 1..];
      at := at + 1;
    }
    ghost var t := str[at..];
    assert At(t, 0) == At(str, at) && At(t, 1) == At(str, at + 1) && At(t, 2) == At(str, at + 2);
    if At(str, at) == '.' {
      if At(str, at + 1) == '/' || At(str, at + 1) == NUL {
        at := at + 1;
      } else if At(str, at + 1) == '.' && (At(str, at + 2) == '/' || At(str, at + 2) == NUL) {
        at := at + 2;
      }
    }
  }

  /** us_simplify_request_path; a C string has no NUL inside. */
  method Simplify(str: string) returns (simplified: string)
    requires NUL !in str
    ensures |simplified| <= |str| && simplified == Result(Body(str))
    ensures Body(str) == "" ==> simplified == ""
    ensures Body(str) != "" ==>
      (simplified == Normalise(Body(str)) <==> Absolute(Body(str)) || !Awkward(Body(str)))
  {
    var buf := new char[|str| + 1];
    if str == "" {
      return "";
    }
    var at := SkipPrefix(str);
    var out := SimplifyBody(buf, str[at..]);
    simplified := buf[..out];
    if Body(str) != "" {
      NormalIff(Body(str));
    }
  }

  // ---------------------------------------------------------------- when the result is the normal form

  /** The first component of a relative path is still on the stack. */
  predicate Bare(stack: seq<string>) {
    stack != [] && stack[0] != "" && stack[0][0] != '/'
  }

  /** Apart from a bare first letter the code and the normaliser treat every token alike. */
  lemma {:induction false} SameFold(ts: seq<string>)
    requires Spells(ts) && (ts != [] ==> ts[0][0] == '/' || |ts[0]| > 1)
    ensures CodeFold(ts) == Fold(ts)
  {
    if ts != [] {
      SameFold(Front(ts));
    }
  }

  /** A bare first letter is missing from the stack of the code for as long as it should be there. */
  lemma {:induction false} LetterFold(ts: seq<string>)
    requires ts != [] && Spells(ts) && ts[0][0] != '/' && |ts[0]| == 1
    ensures CodeFold(ts) == if Bare(Fold(ts)) then Fold(ts)[1..] else Fold(ts)
    ensures !Bare(CodeFold(ts)) && Spells(Fold(ts))
  {
    CodeFoldGood(ts);
    if |ts| == 1 {
      assert Front(ts) == [];
      assert Fold(ts) == [] + [ts[0]];
    } else {
      LetterFold(Front(ts));
    }
  }

  lemma {:induction false} BottomOf(ts: seq<string>)
    requires Spells(ts)
    ensures Bare(CodeFold(ts)) ==> ts != [] && CodeFold(ts)[0] == ts[0] && !Absolute(ts[0])
  {
    if ts != [] {
      CodeFoldGood(Front(ts));
      BottomOf(Front(ts));
      if |ts| == 1 {
        assert CodeFold(Front(ts)) == [];
      }
    }
  }

  lemma {:induction false} JoinedStart(ts: seq<string>)
    requires Spells(ts) && ts != []
    ensures Joined(ts) != "" && Joined(ts)[0] == ts[0][0]
  {
    if |ts| > 1 {
      JoinedStart(Front(ts));
    } else {
      assert Front(ts) == [];
    }
  }

  /** The code and the normaliser agree on when a token that is not a bare letter goes. */
  lemma SameEdge(stack: seq<string>, t: string)
    requires GoodStack(stack) && IsToken(t) && (t[0] == '/' || |t| > 1)
    ensures Dropped(t) <==> Skipped(t)
    ensures Directory(t) ==> (Edge(stack, t) == "/" <==> !(t == "/.." && |stack| == 1 && Bare(stack)))
  {
  }

  /** The first component as the path names it. */
  function Base(p: string): string
    requires p != ""
  {
    Tokens(p)[0]
  }

  /**
   What a relative path must not do: have a first component of one letter that survives, or
   end with the ".." that removes its first component.
   */
  predicate Awkward(p: string)
    requires p != ""
  {
    var ts := Tokens(p);
    if |Base(p)| == 1 then |ts| > 1 && Bare(Fold(ts))
    else Last(ts) == "/.." && |Fold(Front(ts))| == 1 && Bare(Fold(Front(ts)))
  }

  lemma LongBase(p: string)
    requires p != "" && (Absolute(p) || |Base(p)| > 1)
    ensures Result(p) == Normalise(p) <==> !(Last(Tokens(p)) == "/.." && |Fold(Front(Tokens(p)))| == 1 && Bare(Fold(Front(Tokens(p)))))
  {
    var ts := Tokens(p);
    TokensSpell(p);
    SameFold(ts);
    SameFold(Front(ts));
    CodeFoldGood(Front(ts));
    SameEdge(Stack(p), Last(ts));
    SameStart(Joined(Fold(ts)), Edge(Stack(p), Last(ts)), "/");
  }

  lemma SameStart(a: string, b: string, c: string)
    ensures a + b == a + c <==> b == c
  {
    if a + b == a + c {
      assert (a + b)[|a|..] == b && (a + c)[|a|..] == c;
    }
  }

  lemma LetterBase(p: string)
    requires p != "" && !Absolute(p) && |Base(p)| == 1
    ensures Result(p) == Normalise(p) <==> !(|Tokens(p)| > 1 && Bare(Fold(Tokens(p))))
  {
    var ts := Tokens(p);
    TokensSpell(p);
    LetterFold(ts);
    if |ts| == 1 {
      assert Front(ts) == [] && ts == [Base(p)];
      assert Fold(ts) == [] + [Base(p)];
      assert Joined(Fold(ts)) == "" + Base(p);
    } else {
      LetterFold(Front(ts));
      CodeFoldGood(Front(ts));
      CodeFoldGood(ts);
      SameEdge(Stack(p), Last(ts));
      if Bare(Fold(ts)) {
        JoinedStart(Fold(ts));
        StartsWithSlash(p);
      }
    }
  }

  /** The result of a path whose first letter was dropped is an absolute one. */
  lemma StartsWithSlash(p: string)
    requires p != "" && |Tokens(p)| > 1 && Spells(Tokens(p)) && GoodStack(CodeFold(Tokens(p)))
    requires GoodStack(Stack(p)) && !Bare(Stack(p)) && !Bare(CodeFold(Tokens(p)))
    ensures Absolute(Result(p))
  {
    var c, t := CodeFold(Tokens(p)), Last(Tokens(p));
    if c != [] {
      JoinedStart(c);
    }
  }

  /**
   Over all paths the code computes the component-stack normal form exactly when the path is
   absolute or, being relative, is not awkward.
   */
  lemma NormalIff(p: string)
    requires p != ""
    ensures Result(p) == Normalise(p) <==> Absolute(p) || !Awkward(p)
  {
    TokensSpell(p);
    if Absolute(p) {
      LongBase(p);
      var front := Front(Tokens(p));
      if front != [] {
        CodeFoldGood(front);
        SameFold(front);
        BottomOf(front);
      }
    } else if |Base(p)| == 1 {
      LetterBase(p);
    } else {
      LongBase(p);
    }
  }

  // ---------------------------------------------------------------- a second pass changes nothing

  /** Appending a token to a path appends it to its tokens. */
  lemma {:induction false} TokensAppend(p: string, t: string)
    requires IsToken(t) && (p == "" || t[0] == '/')
    ensures Tokens(p + t) == Tokens(p) + [t]
    decreases |t|
  {
    assert Front(p + t) == p + Front(t) && Last(p + t) == Last(t);
    if |t| == 1 {
      assert Front(t) == "" && p + "" == p;
      assert t == [Last(t)];
    } else {
      assert Front(t)[1..] == Front(t[1..]);
      assert Last(t) == t[1..][|t| - 2];
      TokensAppend(p, Front(t));
      assert Front(Tokens(p) + [Front(t)]) == Tokens(p);
      FrontLast(t);
    }
  }

  lemma {:induction false} TokensJoined(ts: seq<string>)
    requires Spells(ts)
    ensures Tokens(Joined(ts)) == ts
  {
    if ts != [] {
      TokensJoined(Front(ts));
      FrontLast(ts);
      if |ts| == 1 {
        assert Front(ts) == [];
      }
      TokensAppend(Joined(Front(ts)), Last(ts));
    }
  }

  /** No empty, "." or ".." component survives. */
  ghost predicate Plain(stack: seq<string>) {
    Spells(stack) && forall i | 0 <= i < |stack| :: !Directory(stack[i])
  }

  lemma {:induction false} FoldPlain(ts: seq<string>)
    requires Spells(ts)
    ensures Plain(Fold(ts))
  {
    if ts != [] {
      FoldPlain(Front(ts));
      if |ts| == 1 {
        assert Fold(Front(ts)) == [];
      }
    }
  }

  lemma {:induction false} FoldSelf(stack: seq<string>)
    requires Plain(stack)
    ensures Fold(stack) == stack
  {
    if stack != [] {
      FoldSelf(Front(stack));
      FrontLast(stack);
    }
  }

  /** The two forms a normal path has. */
  lemma NormalForms(stack: seq<string>)
    requires Plain(stack)
    ensures Normalise(Joined(stack) + "/") == Joined(stack) + "/"
    ensures stack != [] ==> Normalise(Joined(stack)) == Joined(stack)
  {
    FoldSelf(stack);
    TokensJoined(stack);
    TokensAppend(Joined(stack), "/");
    assert Front(stack + ["/"]) == stack;
    if stack != [] {
      JoinedStart(stack);
    }
  }

  /** The normal form of any path is its own normal form and has no dot segments. */
  lemma NormaliseIdempotent(p: string)
    ensures Normalise(Normalise(p)) == Normalise(p)
    ensures Plain(Fold(Tokens(p)))
  {
    TokensSpell(p);
    FoldPlain(Tokens(p));
    if p != "" {
      NormalForms(Fold(Tokens(p)));
    }
  }

  lemma AbsoluteStays(p: string)
    requires Absolute(p)
    ensures Absolute(Normalise(p))
  {
    TokensSpell(p);
    FoldPlain(Tokens(p));
    SameFold(Tokens(p));
    BottomOf(Tokens(p));
    if Fold(Tokens(p)) != [] {
      JoinedStart(Fold(Tokens(p)));
    }
  }

  lemma BodyOfAbsolute(p: string)
    requires Absolute(p)
    ensures Body(p) == p
  {
  }

  /** What the code makes of an absolute path it leaves alone from then on. */
  lemma SecondPass(p: string)
    requires Absolute(p)
    ensures Absolute(Result(p)) && Result(Body(Result(p))) == Result(p)
  {
    NormalIff(p);
    AbsoluteStays(p);
    BodyOfAbsolute(Normalise(p));
    NormalIff(Normalise(p));
    NormaliseIdempotent(p);
  }

  lemma TwoTokens(p: string, a: string, b: string)
    requires p == a + b && IsToken(a) && IsToken(b) && b[0] == '/'
    ensures Tokens(p) == [a, b] && Front(Tokens(p)) == [a] && Stack(p) == CodePush([], a)
    ensures Fold(Tokens(p)) == Push(Push([], a), b)
  {
    TokensAppend("", a);
    assert "" + a == a && [] + [a] == [a];
    TokensAppend(a, b);
    assert Tokens(p) == [a] + [b];
    assert Front([a, b]) == [a];
    OneToken(a);
  }

  lemma OneToken(a: string)
    ensures Fold([a]) == Push([], a) && CodeFold([a]) == CodePush([], a)
  {
    assert Front([a]) == [] && Last([a]) == a;
    assert Fold([]) == [] && CodeFold([]) == [];
  }

  /** One way to be awkward: a first component of one letter disappears, as in "a/b". */
  lemma LetterLost(a: string, t: string)
    requires |a| == 1 && a[0] != '/' && IsToken(t) && t[0] == '/' && !Directory(t)
    ensures Result(a + t) == t && Normalise(a + t) == a + t
    ensures a[0] !in {' ', '.'} ==> Body(a + t) == a + t
  {
    assert (a + t)[0] == a[0];
    TwoTokens(a + t, a, t);
    JoinedTwo(a, t);
    PushTwo(a, t);
  }

  lemma PushTwo(a: string, t: string)
    requires |a| == 1 && a[0] != '/' && IsToken(t) && t[0] == '/' && !Directory(t)
    ensures CodePush([], a) == [] && CodePush([], t) == [t] && !Dropped(t)
    ensures Push([], a) == [a] && Push([a], t) == [a, t]
  {
  }

  lemma JoinedTwo(a: string, b: string)
    ensures Joined([b]) == b && Joined([a, b]) == a + b
  {
    assert Front([a, b]) == [a] && Front([a]) == [] && Front([b]) == [];
    assert "" + a == a && "" + b == b;
  }

  /** The other: the ".." at the end removes all but the first letter of the path, as in "ab/..". */
  lemma LetterLeft(a: string)
    requires |a| > 1 && NoSlash(a)
    ensures Result(a + "/..") == [a[0]] && Normalise(a + "/..") == "/"
    ensures a[0] !in {' ', '.'} ==> Body(a + "/..") == a + "/.."
  {
    assert (a + "/..")[0] == a[0];
    assert a[0] != '/' && IsToken(a);
    TwoTokens(a + "/..", a, "/..");
    assert [] + [a] == [a] && Front([a]) == [];
  }
}
