/** The LaTeX-delimiter rewrite of client/src/components/MarkdownRenderer.jsx
    that runs before the Markdown renderer: display formulas `\[ … \]`
    become `$$` blocks and inline formulas `\( … \)` become `$ … $`. Each
    is a global regular-expression replacement with a lazy body; this
    module spells out how such a replacement scans the text. */
module Markdown {
  import opened Wrappers
  import opened Js

  /** The two kinds of delimiters. */
  datatype Delim = Display | Inline

  function Open(d: Delim): char {
    match d
    case Display => '['
    case Inline => '('
  }

  function Close(d: Delim): char {
    match d
    case Display => ']'
    case Inline => ')'
  }

  /** What `.` does not match, so what cannot occur inside an inline
      formula. */
  predicate IsLineTerminator(c: char) {
    c == '\n' || c == '\r' || c == '\U{2028}' || c == '\U{2029}'
  }

  predicate OpensAt(t: string, k: int, d: Delim) {
    0 <= k && k + 1 < |t| && t[k] == '\\' && t[k + 1] == Open(d)
  }

  predicate ClosesAt(t: string, k: int, d: Delim) {
    0 <= k && k + 1 < |t| && t[k] == '\\' && t[k + 1] == Close(d)
  }

  /** No opening delimiter of kind `d` anywhere in `t`. */
  predicate NoOpener(t: string, d: Delim) {
    forall k :: 0 <= k < |t| ==> !OpensAt(t, k, d)
  }

  /** No closing delimiter of kind `d` anywhere in `t`. */
  predicate NoCloser(t: string, d: Delim) {
    forall k :: 0 <= k < |t| ==> !ClosesAt(t, k, d)
  }

  predicate OneLine(t: string) {
    forall k :: 0 <= k < |t| ==> !IsLineTerminator(t[k])
  }

  /** Where the lazy body ends: the first closing delimiter, which for an
      inline formula must come before the end of the line. */
  function FindCloser(t: string, d: Delim): (r: Option<nat>)
    ensures r.Some? ==> ClosesAt(t, r.value, d)
    ensures r.Some? ==> forall k :: 0 <= k < r.value ==> !ClosesAt(t, k, d)
    ensures r.Some? && d == Inline ==> OneLine(t[..r.value])
    decreases |t|
  {
    if |t| < 2 then None
    else if t[0] == '\\' && t[1] == Close(d) then Some(0)
    else if d == Inline && IsLineTerminator(t[0]) then None
    else
      match FindCloser(t[1..], d)
      case None => None
      case Some(j) =>
        assert forall k :: 1 <= k < j + 1 ==> (ClosesAt(t, k, d) <==> ClosesAt(t[1..], k - 1, d));
        assert d == Inline ==> t[..j + 1] == [t[0]] + t[1..][..j];
        Some(j + 1)
  }

  /** What a formula becomes. */
  function Wrap(d: Delim, formula: string): string {
    match d
    case Display => "\n$$\n" + Trim(formula) + "\n$$\n"
    case Inline => "$" + Trim(formula) + "$"
  }

  /** `text.replace(/\\\[([\s\S]*?)\\\]/g, …)` for `Display` and
      `text.replace(/\\\((.*?)\\\)/g, …)` for `Inline`: scanning left to
      right, an opener with a closer after it (on the same line, for an
      inline formula) is replaced together with the nearest such closer,
      and scanning resumes after the closer; any other character is kept. */
  function Convert(t: string, d: Delim): string
    decreases |t|
  {
    if |t| == 0 then ""
    else if OpensAt(t, 0, d) then
      match FindCloser(t[2..], d)
      case Some(j) => Wrap(d, t[2..2 + j]) + Convert(t[2 + j + 2..], d)
      case None => [t[0]] + Convert(t[1..], d)
    else [t[0]] + Convert(t[1..], d)
  }

  /** `preprocessedContent`: nothing for missing or empty content;
      otherwise display formulas first, then inline ones. */
  function Preprocess(content: Option<string>): (r: string)
    ensures content.None? || content == Some("") ==> r == ""
  {
    if content.None? || content.value == "" then ""
    else Convert(Convert(content.value, Display), Inline)
  }

  /** Text without an opener is left as it is. */
  lemma {:induction false} ConvertNoOpener(t: string, d: Delim)
    requires NoOpener(t, d)
    ensures Convert(t, d) == t
    decreases |t|
  {
    if |t| > 0 {
      assert !OpensAt(t, 0, d);
      forall k | 0 <= k < |t[1..]|
        ensures !OpensAt(t[1..], k, d)
      {
        assert !OpensAt(t, k + 1, d);
      }
      ConvertNoOpener(t[1..], d);
    }
  }

  /** Content without `\[` and without `\(` comes out unchanged. */
  lemma PreprocessPlain(t: string)
    requires NoOpener(t, Display) && NoOpener(t, Inline)
    ensures Preprocess(Some(t)) == t
  {
    if t != "" {
      ConvertNoOpener(t, Display);
      ConvertNoOpener(t, Inline);
    }
  }

  /** With a formula free of closers, the first closer after it is the one
      that ends it. */
  lemma {:induction false} FindCloserAfter(f: string, rest: string, d: Delim)
    requires NoCloser(f, d) && (d == Inline ==> OneLine(f))
    ensures FindCloser(f + ['\\', Close(d)] + rest, d) == Some(|f|)
    decreases |f|
  {
    var t := f + ['\\', Close(d)] + rest;
    if |f| > 0 {
      assert !ClosesAt(f, 0, d) || |f| == 1;
      assert t[1..] == f[1..] + ['\\', Close(d)] + rest;
      forall k | 0 <= k < |f[1..]|
        ensures !ClosesAt(f[1..], k, d)
      {
        assert !ClosesAt(f, k + 1, d);
      }
      FindCloserAfter(f[1..], rest, d);
    }
  }

  /** The pairing: the text up to the first opener is kept, the opener is
      paired with the nearest closer after it, the formula between them is
      trimmed and wrapped, and the rest is converted on its own. */
  lemma ConvertPair(pre: string, f: string, post: string, d: Delim)
    requires NoOpener(pre, d)
    requires NoCloser(f, d) && (d == Inline ==> OneLine(f))
    ensures Convert(pre + ['\\', Open(d)] + f + ['\\', Close(d)] + post, d)
         == pre + Wrap(d, f) + Convert(post, d)
  {
    var tail := ['\\', Open(d)] + f + ['\\', Close(d)] + post;
    assert pre + ['\\', Open(d)] + f + ['\\', Close(d)] + post == pre + tail;
    ConvertPrefix(pre, tail, d);
    PairAtHead(f, post, d);
  }

  /** Text without an opener in front of the rest is copied as it is, as
      long as it does not end in the backslash of an opener. */
  lemma {:induction false} ConvertPrefix(pre: string, tail: string, d: Delim)
    requires NoOpener(pre, d)
    requires |tail| == 0 || tail[0] != Open(d)
    ensures Convert(pre + tail, d) == pre + Convert(tail, d)
    decreases |pre|
  {
    if |pre| == 0 {
      assert pre + tail == tail;
    } else {
      var t := pre + tail;
      assert !OpensAt(t, 0, d) by {
        if |pre| > 1 {
          assert !OpensAt(pre, 0, d);
        }
      }
      KeepFirst(t, d);
      DropFirst(pre, tail);
      NoOpenerTail(pre, d);
      ConvertPrefix(pre[1..], tail, d);
      ConsSplit(pre, Convert(tail, d));
    }
  }

  lemma NoOpenerTail(pre: string, d: Delim)
    requires NoOpener(pre, d) && |pre| > 0
    ensures NoOpener(pre[1..], d)
  {
    forall k | 0 <= k < |pre[1..]|
      ensures !OpensAt(pre[1..], k, d)
    {
      assert !OpensAt(pre, k + 1, d);
    }
  }

  /** An opener at the start with its closer after a closer-free
      formula. */
  lemma PairAtHead(f: string, post: string, d: Delim)
    requires NoCloser(f, d) && (d == Inline ==> OneLine(f))
    ensures Convert(['\\', Open(d)] + f + ['\\', Close(d)] + post, d) == Wrap(d, f) + Convert(post, d)
  {
    var close := ['\\', Close(d)];
    var body := f + close + post;
    Assoc(['\\', Open(d)] + f, close, post);
    Assoc(['\\', Open(d)], f, close + post);
    Assoc(f, close, post);
    FindCloserAfter(f, post, d);
    ConvertAtOpener(body, d, |f|);
    PairSlices(f, close, post);
  }

  /** An opener followed by text whose first closer is at `j`. */
  lemma ConvertAtOpener(body: string, d: Delim, j: nat)
    requires FindCloser(body, d) == Some(j)
    ensures Convert(['\\', Open(d)] + body, d) == Wrap(d, body[..j]) + Convert(body[j + 2..], d)
  {
    var t := ['\\', Open(d)] + body;
    assert OpensAt(t, 0, d);
    OpenerSlices(['\\', Open(d)], body, j);
  }

  lemma OpenerSlices<T>(head: seq<T>, body: seq<T>, j: nat)
    requires |head| == 2 && j + 2 <= |body|
    ensures (head + body)[2..] == body
    ensures (head + body)[2..2 + j] == body[..j]
    ensures (head + body)[2 + j + 2..] == body[j + 2..]
  {
  }

  lemma PairSlices<T>(f: seq<T>, close: seq<T>, post: seq<T>)
    requires |close| == 2
    ensures (f + close + post)[..|f|] == f
    ensures (f + close + post)[|f| + 2..] == post
  {
  }

  lemma DropFirst<T>(a: seq<T>, b: seq<T>)
    requires |a| > 0
    ensures (a + b)[1..] == a[1..] + b
  {
  }

  /** A character that does not open a formula is copied. */
  lemma KeepFirst(t: string, d: Delim)
    requires |t| > 0 && !OpensAt(t, 0, d)
    ensures Convert(t, d) == [t[0]] + Convert(t[1..], d)
  {
  }

  lemma ConsSplit(pre: string, rest: string)
    requires |pre| > 0
    ensures pre + rest == [pre[0]] + (pre[1..] + rest)
  {
    assert pre == [pre[0]] + pre[1..];
  }

  /** An inline formula broken across lines is not converted: with no
      other delimiters around it, the text is left as it is. */
  lemma InlineNeedsOneLine(f: string)
    requires NoOpener(f, Inline) && NoCloser(f, Inline) && !OneLine(f)
    ensures Convert("\\(" + f + "\\)", Inline) == "\\(" + f + "\\)"
  {
    var t := "\\(" + f + "\\)";
    var k :| 0 <= k < |f| && IsLineTerminator(f[k]);
    assert FindCloser(t[2..], Inline).None? by {
      assert t[2..] == f + "\\)";
      NoCloserBefore(f, "\\)", k);
    }
    assert t[1..] == "(" + f + "\\)";
    forall i | 0 <= i < |t[1..]|
      ensures !OpensAt(t[1..], i, Inline)
    {
      if 1 <= i < |f| {
        assert !OpensAt(f, i - 1, Inline);
      }
    }
    ConvertNoOpener(t[1..], Inline);
  }

  /** The scan for an inline closer stops at a line break that comes
      before any closer. */
  lemma {:induction false} NoCloserBefore(f: string, rest: string, k: nat)
    requires k < |f| && IsLineTerminator(f[k]) && NoCloser(f, Inline)
    ensures FindCloser(f + rest, Inline).None?
    decreases |f|
  {
    var t := f + rest;
    if k > 0 {
      assert t[1..] == f[1..] + rest;
      assert !ClosesAt(f, 0, Inline) || |f| == 1;
      forall i | 0 <= i < |f[1..]|
        ensures !ClosesAt(f[1..], i, Inline)
      {
        assert !ClosesAt(f, i + 1, Inline);
      }
      NoCloserBefore(f[1..], rest, k - 1);
    }
  }

  /** Display formulas are converted before inline ones: an inline formula
      written inside a display formula ends up as `$…$` inside the `$$`
      block. */
  lemma DisplayBeforeInline(g: string)
    requires NoCloser(g, Display) && NoCloser(g, Inline) && OneLine(g)
    ensures Preprocess(Some("\\[\\(" + g + "\\)\\]")) == "\n$$\n" + ("$" + Trim(g) + "$") + "\n$$\n"
  {
    var t := "\\[\\(" + g + "\\)\\]";
    DisplayOuter(g);
    FenceNoOpener();
    assert Preprocess(Some(t)) == Convert(Convert(t, Display), Inline);
    InlineInner(g, "\n$$\n");
  }

  lemma FenceNoOpener()
    ensures NoOpener("\n$$\n", Inline)
  {
  }

  lemma DisplayOuter(g: string)
    requires NoCloser(g, Display)
    ensures Convert("\\[\\(" + g + "\\)\\]", Display) == "\n$$\n" + ("\\(" + g + "\\)") + "\n$$\n"
  {
    var inner := "\\(" + g + "\\)";
    InnerTrimmed(g);
    InnerNoDisplayCloser(g);
    assert "\\[\\(" == ['\\', Open(Display)] + "\\(" && "\\)\\]" == "\\)" + ['\\', Close(Display)];
    Regroup(['\\', Open(Display)], "\\(", g, "\\)", ['\\', Close(Display)]);
    PairAtHead(inner, "", Display);
  }

  lemma Regroup<T>(a: seq<T>, b: seq<T>, g: seq<T>, c: seq<T>, d: seq<T>)
    ensures (a + b) + g + (c + d) == a + (b + g + c) + d + []
  {
  }

  lemma InnerNoDisplayCloser(g: string)
    requires NoCloser(g, Display)
    ensures NoCloser("\\(" + g + "\\)", Display)
  {
    var inner := "\\(" + g + "\\)";
    forall k | 0 <= k < |inner|
      ensures !ClosesAt(inner, k, Display)
    {
      if 2 <= k < 2 + |g| - 1 {
        assert !ClosesAt(g, k - 2, Display);
      }
    }
  }

  /** An inline formula written out has no blanks around it. */
  lemma InnerTrimmed(g: string)
    ensures Trim("\\(" + g + "\\)") == "\\(" + g + "\\)"
  {
    var inner := "\\(" + g + "\\)";
    assert inner[0] == '\\' && inner[|inner| - 1] == ')';
    TrimFixedPoint(inner);
  }

  /** An inline formula between two pieces of text without openers. */
  lemma InlineInner(g: string, fence: string)
    requires NoCloser(g, Inline) && OneLine(g) && NoOpener(fence, Inline)
    ensures Convert(fence + ("\\(" + g + "\\)") + fence, Inline) == fence + ("$" + Trim(g) + "$") + fence
  {
    var tail := ['\\', Open(Inline)] + g + ['\\', Close(Inline)] + fence;
    assert fence + ("\\(" + g + "\\)") + fence == fence + tail;
    ConvertPrefix(fence, tail, Inline);
    PairAtHead(g, fence, Inline);
    ConvertNoOpener(fence, Inline);
    var w := "$" + Trim(g) + "$";
    assert Wrap(Inline, g) == w;
    assert Convert(tail, Inline) == w + fence;
    Assoc(fence, w, fence);
  }

  lemma Assoc<T>(a: seq<T>, b: seq<T>, c: seq<T>)
    ensures a + (b + c) == a + b + c
  {
  }
}
