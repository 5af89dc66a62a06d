/** Nested `{if:key}` blocks of the manifest templates. */
module Conditionals {
  import opened Options
  import PyLines

  predicate KeyChar(c: char) {
    'a' <= c <= 'z' || '0' <= c <= '9' || c == '_'
  }

  predicate IsKey(s: string) {
    s != "" && forall i :: 0 <= i < |s| ==> KeyChar(s[i])
  }

  datatype Mark = Opening(key: string) | Closing(key: string) | Plain

  /** The pattern's `$` also matches before a final line feed. */
  function ChopLf(s: string): string {
    if s != "" && s[|s| - 1] == '\n' then s[..|s| - 1] else s
  }

  /** The key between `head` and a closing brace. */
  function KeyIn(head: string, s: string): Option<string> {
    if |s| > |head| && head <= s && s[|s| - 1] == '}' && IsKey(s[|head|..|s| - 1]) then Some(s[|head|..|s| - 1])
    else None
  }

  function MarkOf(line: string): Mark {
    var s := ChopLf(PyLines.LStrip(line));
    match KeyIn("{if:", s)
    case Some(k) => Opening(k)
    case None =>
      match KeyIn("{/if:", s)
      case Some(k) => Closing(k)
      case None => Plain
  }

  lemma {:induction false} KeyIs(k: string)
    ensures IsKey(k) <==> k != "" && forall c :: c in k ==> 'a' <= c <= 'z' || '0' <= c <= '9' || c == '_'
  {
    forall i | 0 <= i < |k| ensures k[i] in k { }
  }

  /** The line is the marker of this key: whitespace, the head, the key, a closing brace, at most one line feed. */
  ghost predicate MarkerLine(line: string, head: string, k: string) {
    k != "" && (forall c :: c in k ==> 'a' <= c <= 'z' || '0' <= c <= '9' || c == '_') && exists w: string, e: string ::
      PyLines.PyBlank(w) && (e == "" || e == "\n") && line == w + (head + k + "}") + e
  }

  lemma {:induction false} KeyInIs(head: string, s: string, k: string)
    ensures KeyIn(head, s) == Some(k) <==> IsKey(k) && s == head + k + "}"
  {
    if KeyIn(head, s) == Some(k) {
      assert s == s[..|head|] + s[|head|..|s| - 1] + s[|s| - 1..];
    }
    if IsKey(k) && s == head + k + "}" {
      assert s[..|head|] == head && s[|head|..|s| - 1] == k;
    }
  }

  lemma {:induction false} ChopSplit(s: string) returns (e: string)
    ensures (e == "" || e == "\n") && s == ChopLf(s) + e
  {
    e := if s != "" && s[|s| - 1] == '\n' then "\n" else "";
  }

  lemma {:induction false} MarkerIs(line: string, head: string, k: string)
    requires head == "{if:" || head == "{/if:"
    ensures KeyIn(head, ChopLf(PyLines.LStrip(line))) == Some(k) <==> MarkerLine(line, head, k)
  {
    var s := ChopLf(PyLines.LStrip(line));
    KeyIs(k);
    hide *;
    KeyInIs(head, s, k);
    if KeyIn(head, s) == Some(k) { MarkerFrom(line, head, k); }
    if MarkerLine(line, head, k) { MarkerBack(line, head, k); }
  }

  lemma {:induction false} MarkerFrom(line: string, head: string, k: string)
    requires IsKey(k) && ChopLf(PyLines.LStrip(line)) == head + k + "}"
    ensures MarkerLine(line, head, k)
  {
    KeyIs(k);
    hide IsKey, ChopLf, PyLines.LStrip, PyLines.PyBlank;
    var w := PyLines.LStripSplit(line);
    var e := ChopSplit(PyLines.LStrip(line));
    assert line == w + (head + k + "}") + e;
  }

  lemma {:induction false} MarkerBack(line: string, head: string, k: string)
    requires (head == "{if:" || head == "{/if:") && MarkerLine(line, head, k)
    ensures IsKey(k) && ChopLf(PyLines.LStrip(line)) == head + k + "}"
  {
    KeyIs(k);
    hide IsKey, PyLines.LStrip, PyLines.PyBlank;
    var w: string, e: string :| PyLines.PyBlank(w) && (e == "" || e == "\n") && line == w + (head + k + "}") + e;
    var m := head + k + "}";
    assert line == w + (m + e) && (m + e)[0] == '{';
    PyLines.LStripBack(w, m + e);
    if e == "\n" { assert (m + e)[..|m + e| - 1] == m; } else { assert m + e == m && m[|m| - 1] == '}'; }
  }

  /** Which lines are markers, and of which key. */
  lemma {:induction false} MarkMeans(line: string, k: string)
    ensures MarkOf(line) == Opening(k) <==> MarkerLine(line, "{if:", k)
    ensures MarkOf(line) == Closing(k) <==> MarkerLine(line, "{/if:", k)
  {
    var s := ChopLf(PyLines.LStrip(line));
    MarkerIs(line, "{if:", k);
    MarkerIs(line, "{/if:", k);
    if KeyIn("{if:", s).Some? { KeyInIs("{if:", s, KeyIn("{if:", s).value); }
    if KeyIn("{/if:", s).Some? { KeyInIs("{/if:", s, KeyIn("{/if:", s).value); }
    HeadsDiffer(s);
    hide KeyIn, ChopLf, PyLines.LStrip, MarkerLine;
  }

  lemma {:induction false} HeadsDiffer(s: string)
    ensures !(KeyIn("{if:", s).Some? && KeyIn("{/if:", s).Some?)
  {
    assert "{if:"[1] == 'i' && "{/if:"[1] == '/';
  }

  // ----- Templates as block trees -----

  datatype Node = Text(line: string) | Block(open: string, body: seq<Node>, close: string)

  predicate Formed(nodes: seq<Node>) {
    forall i :: 0 <= i < |nodes| ==> NodeFormed(nodes[i])
  }

  /** A text line is no marker; a block's markers carry the same key. */
  predicate NodeFormed(n: Node) {
    match n
    case Text(line) => MarkOf(line) == Plain
    case Block(open, body, close) =>
      && MarkOf(open).Opening? && MarkOf(close) == Closing(MarkOf(open).key)
      && forall i :: 0 <= i < |body| ==> NodeFormed(body[i])
  }

  function Flatten(nodes: seq<Node>): seq<string>
    decreases nodes
  {
    if nodes == [] then [] else NodeLines(nodes[0]) + Flatten(nodes[1..])
  }

  function NodeLines(n: Node): seq<string>
    decreases n
  {
    match n
    case Text(line) => [line]
    case Block(open, body, close) => [open] + (Flatten(body) + [close])
  }

  /** The meaning of a template: a block's body counts when its key is there. */
  function Eval(nodes: seq<Node>, keys: set<string>): seq<string>
    decreases nodes
  {
    if nodes == [] then [] else NodeEval(nodes[0], keys) + Eval(nodes[1..], keys)
  }

  function NodeEval(n: Node, keys: set<string>): seq<string>
    decreases n
  {
    match n
    case Text(line) => [line]
    case Block(open, body, close) =>
      if MarkOf(open).Opening? && MarkOf(open).key in keys then Eval(body, keys) else []
  }

  ghost predicate WellNested(lines: seq<string>) {
    exists nodes :: Formed(nodes) && Flatten(nodes) == lines
  }

  // ----- The stack machine -----

  predicate AllIn(stack: seq<string>, keys: set<string>) {
    forall i :: 0 <= i < |stack| ==> stack[i] in keys
  }

  function Front(out: seq<string>, r: Option<seq<string>>): Option<seq<string>> {
    if r.Some? then Some(out + r.value) else None
  }

  /** The machine from a stack of open keys: its output, nothing on an unmatched or unclosed marker. */
  function Run(lines: seq<string>, stack: seq<string>, keys: set<string>): Option<seq<string>>
    decreases |lines|
  {
    if lines == [] then if stack == [] then Some([]) else None
    else match MarkOf(lines[0])
      case Opening(k) => Run(lines[1..], stack + [k], keys)
      case Closing(k) =>
        if stack == [] || stack[|stack| - 1] != k then None else Run(lines[1..], stack[..|stack| - 1], keys)
      case Plain => Front(if AllIn(stack, keys) then [lines[0]] else [], Run(lines[1..], stack, keys))
  }

  lemma {:induction false} FrontTwice(a: seq<string>, b: seq<string>, r: Option<seq<string>>)
    ensures Front(a, Front(b, r)) == Front(a + b, r) && Front([], r) == r
  {
    if r.Some? {
      assert a + (b + r.value) == (a + b) + r.value;
      assert [] + r.value == r.value;
    }
  }

  lemma {:induction false} AllInMore(stack: seq<string>, k: string, keys: set<string>)
    ensures AllIn(stack + [k], keys) <==> AllIn(stack, keys) && k in keys
  {
    assert (stack + [k])[|stack|] == k;
    assert forall i :: 0 <= i < |stack| ==> (stack + [k])[i] == stack[i];
  }

  /** What the nodes in front contribute under a stack. */
  function Shown(nodes: seq<Node>, stack: seq<string>, keys: set<string>): seq<string> {
    if AllIn(stack, keys) then Eval(nodes, keys) else []
  }

  /** Running over the lines of a tree gives its meaning and leaves the stack as it was. */
  lemma {:induction false} RunTree(nodes: seq<Node>, rest: seq<string>, stack: seq<string>, keys: set<string>)
    requires Formed(nodes)
    ensures Run(Flatten(nodes) + rest, stack, keys) == Front(Shown(nodes, stack, keys), Run(rest, stack, keys))
    decreases nodes
  {
    hide MarkOf, AllIn, Run;
    if nodes == [] {
      assert [] + rest == rest;
      FrontTwice([], [], Run(rest, stack, keys));
    } else {
      var tail := Flatten(nodes[1..]) + rest;
      assert Flatten(nodes) + rest == NodeLines(nodes[0]) + tail;
      RunNode(nodes[0], tail, stack, keys);
      RunTree(nodes[1..], rest, stack, keys);
      FrontTwice(ShownNode(nodes[0], stack, keys), Shown(nodes[1..], stack, keys), Run(rest, stack, keys));
    }
  }

  function ShownNode(n: Node, stack: seq<string>, keys: set<string>): seq<string> {
    if AllIn(stack, keys) then NodeEval(n, keys) else []
  }

  lemma {:induction false} RunNode(n: Node, rest: seq<string>, stack: seq<string>, keys: set<string>)
    requires NodeFormed(n)
    ensures Run(NodeLines(n) + rest, stack, keys) == Front(ShownNode(n, stack, keys), Run(rest, stack, keys))
    decreases n
  {
    hide MarkOf, AllIn;
    var lines := NodeLines(n) + rest;
    match n
    case Text(line) =>
      assert lines[0] == line && lines[1..] == rest;
    case Block(open, body, close) =>
      var k := MarkOf(open).key;
      var tail := [close] + rest;
      assert lines[0] == open && lines[1..] == Flatten(body) + tail;
      RunTree(body, tail, stack + [k], keys);
      assert tail[0] == close && tail[1..] == rest;
      assert (stack + [k])[..|stack|] == stack;
      AllInMore(stack, k, keys);
      CloseStep(close, rest, stack, k, keys);
  }

  lemma {:induction false} CloseStep(close: string, rest: seq<string>, stack: seq<string>, k: string, keys: set<string>)
    requires MarkOf(close) == Closing(k)
    ensures Run([close] + rest, stack + [k], keys) == Run(rest, stack, keys)
  {
    hide MarkOf, AllIn;
    var tail := [close] + rest;
    assert tail[0] == close && tail[1..] == rest;
    assert (stack + [k])[..|stack|] == stack;
  }

  /** A successful run from an open block finds its end: a tree, the closing marker, and the rest. */
  lemma {:induction false} FindTree(lines: seq<string>, stack: seq<string>, keys: set<string>)
    returns (nodes: seq<Node>, close: string, rest: seq<string>)
    requires Run(lines, stack, keys).Some?
    ensures Formed(nodes) && |rest| <= |lines|
    ensures stack == [] ==> Flatten(nodes) == lines
    ensures stack != [] ==> lines == Flatten(nodes) + ([close] + rest) && MarkOf(close) == Closing(stack[|stack| - 1])
                            && Run(rest, stack[..|stack| - 1], keys).Some? && |rest| < |lines|
    decreases |lines|
  {
    hide MarkOf, AllIn;
    nodes, close, rest := [], "", lines;
    if lines != [] {
      match MarkOf(lines[0])
      case Closing(k) =>
        close, rest := lines[0], lines[1..];
        assert lines == [] + ([close] + rest);
      case Plain =>
        var more;
        more, close, rest := FindTree(lines[1..], stack, keys);
        nodes := [Text(lines[0])] + more;
        PutFirst(Text(lines[0]), more);
        if stack != [] { assert lines == [lines[0]] + (Flatten(more) + ([close] + rest)); }
      case Opening(k) =>
        var body, end, after := FindTree(lines[1..], stack + [k], keys);
        assert (stack + [k])[..|stack|] == stack;
        var block := Block(lines[0], body, end);
        var more;
        more, close, rest := FindTree(after, stack, keys);
        nodes := [block] + more;
        PutFirst(block, more);
        assert lines == [lines[0]] + (Flatten(body) + ([end] + after));
        BlockLines(lines, block, after, more, close, rest, stack);
    }
  }

  lemma {:induction false} PutFirst(n: Node, more: seq<Node>)
    requires NodeFormed(n) && Formed(more)
    ensures Formed([n] + more) && Flatten([n] + more) == NodeLines(n) + Flatten(more)
  {
    assert ([n] + more)[1..] == more;
    hide NodeFormed;
  }

  lemma {:induction false} BlockLines(lines: seq<string>, block: Node, after: seq<string>, more: seq<Node>,
                                      close: string, rest: seq<string>, stack: seq<string>)
    requires block.Block? && lines == [block.open] + (Flatten(block.body) + ([block.close] + after))
    requires after == (if stack == [] then Flatten(more) else Flatten(more) + ([close] + rest))
    ensures var here := NodeLines(block) + Flatten(more);
            lines == if stack == [] then here else here + ([close] + rest)
  {
    assert lines == NodeLines(block) + after;
    hide NodeLines, Flatten;
  }

  /** The machine succeeds exactly on well-nested templates, and its output is the tree's meaning. */
  lemma {:induction false} RunIsEval(lines: seq<string>, keys: set<string>)
    ensures Run(lines, [], keys).Some? <==> WellNested(lines)
    ensures forall nodes :: Formed(nodes) && Flatten(nodes) == lines ==> Run(lines, [], keys) == Some(Eval(nodes, keys))
  {
    hide MarkOf, Run, Eval, Flatten, Formed;
    forall nodes | Formed(nodes) && Flatten(nodes) == lines ensures Run(lines, [], keys) == Some(Eval(nodes, keys)) {
      RunTree(nodes, [], [], keys);
      assert lines + [] == lines;
      RunEmpty(keys);
      assert Eval(nodes, keys) + [] == Eval(nodes, keys);
    }
    if Run(lines, [], keys).Some? {
      var nodes, close, rest := FindTree(lines, [], keys);
    }
  }

  lemma {:induction false} RunEmpty(keys: set<string>)
    ensures Run([], [], keys) == Some([])
  {
  }

  datatype Rendered = Output(lines: seq<string>) | Unmatched(line: nat, key: string) | Unclosed(line: nat, key: string)

  datatype Open = Open(key: string, line: nat)

  function Keys(stack: seq<Open>): (ks: seq<string>)
    ensures |ks| == |stack| && forall i :: 0 <= i < |stack| ==> ks[i] == stack[i].key
  {
    seq(|stack|, i requires 0 <= i < |stack| => stack[i].key)
  }

  /** After the first `i` lines the machine has this output and this stack, whatever follows. */
  ghost predicate Reached(lines: seq<string>, i: nat, stack: seq<Open>, out: seq<string>, keys: set<string>)
    requires i <= |lines|
  {
    forall more: seq<string> :: Run(lines[..i] + more, [], keys) == Front(out, Run(more, Keys(stack), keys))
  }

  lemma {:induction false} ReachedNext(lines: seq<string>, i: nat, stack: seq<Open>, out: seq<string>,
                                       stack': seq<Open>, shown: seq<string>, keys: set<string>)
    requires i < |lines| && Reached(lines, i, stack, out, keys)
    requires forall more: seq<string> ::
               Run([lines[i]] + more, Keys(stack), keys) == Front(shown, Run(more, Keys(stack'), keys))
    ensures Reached(lines, i + 1, stack', out + shown, keys)
  {
    hide Run, Keys;
    forall more: seq<string>
      ensures Run(lines[..i + 1] + more, [], keys) == Front(out + shown, Run(more, Keys(stack'), keys)) {
      assert lines[..i + 1] + more == lines[..i] + ([lines[i]] + more);
      FrontTwice(out, shown, Run(more, Keys(stack'), keys));
    }
  }

  /** One line, whatever follows. */
  lemma {:induction false} OneLine(line: string, more: seq<string>, stack: seq<Open>, n: nat, keys: set<string>)
    ensures var ks := Keys(stack);
            match MarkOf(line)
            case Opening(k) => Run([line] + more, ks, keys) == Front([], Run(more, Keys(stack + [Open(k, n)]), keys))
            case Closing(k) =>
              if stack == [] || stack[|stack| - 1].key != k then Run([line] + more, ks, keys) == None
              else Run([line] + more, ks, keys) == Front([], Run(more, Keys(stack[..|stack| - 1]), keys))
            case Plain =>
              Run([line] + more, ks, keys) == Front(if AllIn(ks, keys) then [line] else [], Run(more, ks, keys))
  {
    hide MarkOf, AllIn;
    var lines := [line] + more;
    assert lines[0] == line && lines[1..] == more;
    FrontTwice([], [], Run(more, Keys(stack), keys));
    match MarkOf(line)
    case Opening(k) =>
      assert Keys(stack + [Open(k, n)]) == Keys(stack) + [k];
      FrontTwice([], [], Run(more, Keys(stack) + [k], keys));
    case Closing(k) =>
      if stack != [] {
        assert Keys(stack[..|stack| - 1]) == Keys(stack)[..|stack| - 1];
        FrontTwice([], [], Run(more, Keys(stack)[..|stack| - 1], keys));
      }
    case Plain =>
  }

  /** Each open entry is the line that opened it. */
  ghost predicate Opened(lines: seq<string>, stack: seq<Open>) {
    forall i :: 0 <= i < |stack| ==>
      1 <= stack[i].line <= |lines| && MarkOf(lines[stack[i].line - 1]) == Opening(stack[i].key)
  }

  /** No text after the first `n` lines makes them a well-nested template. */
  ghost predicate Hopeless(lines: seq<string>, n: nat)
    requires n <= |lines|
  {
    var read := lines[..n];
    forall more :: !WellNested(read + more)
  }

  lemma {:induction false} NeverNested(lines: seq<string>, i: nat, stack: seq<Open>, out: seq<string>,
                                       keys: set<string>)
    requires i < |lines| && Reached(lines, i, stack, out, keys)
    requires forall more: seq<string> :: Run([lines[i]] + more, Keys(stack), keys) == None
    ensures Hopeless(lines, i + 1)
  {
    hide Run, Keys, WellNested;
    var read := lines[..i + 1];
    forall more ensures !WellNested(read + more) {
      assert read + more == lines[..i] + ([lines[i]] + more);
      RunIsEval(read + more, keys);
    }
  }

  /** One more line: where it takes the machine, or that nothing after it can help. */
  lemma {:induction false} LineTaken(lines: seq<string>, i: nat, stack: seq<Open>, out: seq<string>,
                                     keys: set<string>)
    requires i < |lines| && Reached(lines, i, stack, out, keys)
    ensures match MarkOf(lines[i])
            case Opening(k) => Reached(lines, i + 1, stack + [Open(k, i + 1)], out, keys)
            case Closing(k) =>
              if stack == [] || stack[|stack| - 1].key != k then Hopeless(lines, i + 1)
              else Reached(lines, i + 1, stack[..|stack| - 1], out, keys)
            case Plain =>
              Reached(lines, i + 1, stack, out + (if AllIn(Keys(stack), keys) then [lines[i]] else []), keys)
  {
    hide *;
    var line := lines[i];
    assert out + [] == out;
    forall more: seq<string> { OneLine(line, more, stack, i + 1, keys); }
    match MarkOf(line)
    case Opening(k) =>
      ReachedNext(lines, i, stack, out, stack + [Open(k, i + 1)], [], keys);
    case Closing(k) =>
      if stack == [] || stack[|stack| - 1].key != k {
        NeverNested(lines, i, stack, out, keys);
      } else {
        ReachedNext(lines, i, stack, out, stack[..|stack| - 1], [], keys);
      }
    case Plain =>
      ReachedNext(lines, i, stack, out, stack, if AllIn(Keys(stack), keys) then [line] else [], keys);
  }

  lemma {:induction false} AtStart(lines: seq<string>, keys: set<string>)
    ensures Reached(lines, 0, [], [], keys) && AllIn(Keys([]), keys)
  {
    forall more: seq<string> ensures Run(lines[..0] + more, [], keys) == Front([], Run(more, Keys([]), keys)) {
      assert lines[..0] + more == more && Keys([]) == [];
      FrontTwice([], [], Run(more, [], keys));
    }
  }

  lemma {:induction false} AtEnd(lines: seq<string>, stack: seq<Open>, out: seq<string>, keys: set<string>)
    requires Reached(lines, |lines|, stack, out, keys)
    ensures Run(lines, [], keys) == if stack == [] then Some(out) else None
  {
    assert lines[..|lines|] + [] == lines;
    assert out + [] == out;
    assert Run([], Keys(stack), keys) == if stack == [] then Some([]) else None;
    hide Run, Keys;
  }

  function Closer(key: string): string {
    "{/if:" + key + "}"
  }

  lemma {:induction false} CloserMark(key: string)
    requires IsKey(key)
    ensures MarkOf(Closer(key)) == Closing(key)
  {
    var line := Closer(key);
    assert line[0] == '{' && line[1] == '/' && line[|line| - 1] == '}';
    assert ChopLf(PyLines.LStrip(line)) == line;
    hide PyLines.LStrip;
    assert "{if:"[1] == 'i';
    assert KeyIn("{if:", line) == None;
    assert line[..5] == "{/if:" && line[5..|line| - 1] == key;
  }

  lemma {:induction false} OpenedKey(line: string, key: string)
    requires MarkOf(line) == Opening(key)
    ensures IsKey(key)
  {
    var s := ChopLf(PyLines.LStrip(line));
    assert KeyIn("{if:", s) == Some(key);
  }

  /** The closing markers of the open blocks, innermost first. */
  function Closers(stack: seq<Open>): seq<string> {
    if stack == [] then [] else [Closer(stack[|stack| - 1].key)] + Closers(stack[..|stack| - 1])
  }

  lemma {:induction false} CloseAll(stack: seq<Open>, keys: set<string>)
    requires forall i :: 0 <= i < |stack| ==> IsKey(stack[i].key)
    ensures Run(Closers(stack), Keys(stack), keys) == Some([])
  {
    hide MarkOf, Run, Closer, IsKey;
    RunEmpty(keys);
    if stack == [] {
      assert Keys(stack) == [];
    } else {
      var top, rest := stack[|stack| - 1], stack[..|stack| - 1];
      CloseAll(rest, keys);
      CloserMark(top.key);
      OneLine(Closer(top.key), Closers(rest), stack, 0, keys);
      FrontTwice([], [], Some([]));
    }
  }

  /** Closing the block of this key, then some more text, makes the lines a well-nested template. */
  ghost predicate Closable(lines: seq<string>, key: string) {
    exists more :: WellNested(lines + ([Closer(key)] + more))
  }

  lemma {:induction false} LeftOpen(lines: seq<string>, stack: seq<Open>, out: seq<string>, keys: set<string>)
    requires Reached(lines, |lines|, stack, out, keys) && Opened(lines, stack) && stack != []
    ensures Closable(lines, stack[|stack| - 1].key)
  {
    forall i | 0 <= i < |stack| ensures IsKey(stack[i].key) {
      OpenedKey(lines[stack[i].line - 1], stack[i].key);
    }
    hide MarkOf, Run, Keys, Closer, IsKey, WellNested;
    CloseAll(stack, keys);
    assert lines[..|lines|] == lines;
    RunIsEval(lines + Closers(stack), keys);
  }

  /** `_render_conditionals(lines, keys, source)`. A marker is reported as unmatched only when no text
      after it could make the template well nested, and a block as unclosed only when closing it first
      could. */
  method RenderConditionals(lines: seq<string>, keys: set<string>) returns (r: Rendered)
    ensures r.Output? <==> WellNested(lines)
    ensures forall nodes :: Formed(nodes) && Flatten(nodes) == lines ==> r == Output(Eval(nodes, keys))
    ensures r.Unmatched? ==> 1 <= r.line <= |lines| && MarkOf(lines[r.line - 1]) == Closing(r.key)
                             && Hopeless(lines, r.line)
    ensures r.Unclosed? ==> 1 <= r.line <= |lines| && MarkOf(lines[r.line - 1]) == Opening(r.key)
                            && Closable(lines, r.key)
  {
    hide MarkOf, Formed, Flatten, Eval, WellNested, Hopeless, Closable, Run, Reached, Keys, AllIn;
    RunIsEval(lines, keys);
    AtStart(lines, keys);
    var out: seq<string> := [];
    var stack: seq<Open> := [];
    var emit := true;
    for i := 0 to |lines|
      invariant emit == AllIn(Keys(stack), keys)
      invariant Reached(lines, i, stack, out, keys) && Opened(lines, stack)
    {
      var line := lines[i];
      LineTaken(lines, i, stack, out, keys);
      match MarkOf(line)
      case Opening(key) =>
        KeysMore(stack, Open(key, i + 1));
        AllInMore(Keys(stack), key, keys);
        stack := stack + [Open(key, i + 1)];
        emit := emit && key in keys;
      case Closing(key) =>
        if stack == [] || stack[|stack| - 1].key != key {
          RestNested(lines, i + 1);
          return Unmatched(i + 1, key);
        }
        stack := stack[..|stack| - 1];
        emit := AllIn(Keys(stack), keys);
      case Plain =>
        assert out + [] == out;
        if emit {
          out := out + [line];
        }
    }
    AtEnd(lines, stack, out, keys);
    if stack != [] {
      LeftOpen(lines, stack, out, keys);
      return Unclosed(stack[|stack| - 1].line, stack[|stack| - 1].key);
    }
    return Output(out);
  }

  lemma {:induction false} KeysMore(stack: seq<Open>, o: Open)
    ensures Keys(stack + [o]) == Keys(stack) + [o.key]
  {
  }

  lemma {:induction false} RestNested(lines: seq<string>, i: nat)
    requires i <= |lines| && Hopeless(lines, i)
    ensures !WellNested(lines)
  {
    hide WellNested;
    assert lines == lines[..i] + lines[i..];
  }
}
