/**
 * The log panel: how drawing it moves the stored scroll offset (following the newest messages
 * while the panel is not focused, clamping the user's offset while it is), how long messages are
 * wrapped into panel-wide lines, and the colour of each line.
 */
module RenderLogs {
  import opened Text
  import opened ListWindow

  /** `LogsState`: the log messages, oldest first, and the index of the first one shown. */
  class LogsState {
    var messages: seq<string>
    var scroll: nat

    /** `new`: no messages, scrolled to the top. */
    constructor ()
      ensures messages == [] && scroll == 0
    {
      messages := [];
      scroll := 0;
    }
  }

  /**
   * The scroll offset after drawing a panel showing `visible` messages. Unfocused: stick to the
   * bottom when within one message of it, show from the top when everything fits, otherwise
   * keep the offset. Focused: clamp the offset the user chose.
   */
  function ScrollAfter(scroll: nat, len: nat, visible: nat, isFocused: bool): (r: nat)
    ensures r <= len
    ensures isFocused ==> r == ClampScroll(scroll, len, visible) && r <= scroll
    ensures !isFocused && len <= visible ==> r == 0
    ensures !isFocused && len > visible && scroll + visible >= SatSub(len, 1) ==> r + visible == len
    ensures !isFocused && len > visible && scroll + visible < SatSub(len, 1) ==> r == scroll
    ensures !isFocused && scroll + visible + 1 >= len ==> r + visible >= len
  {
    if !isFocused then
      if len > visible then
        if scroll + visible >= SatSub(len, 1) then len - visible else scroll
      else 0
    else ClampScroll(scroll, len, visible)
  }

  /** The scroll update at the start of `render_logs`, for a panel with `visibleHeight` rows inside its border. */
  method AdjustScroll(logs: LogsState, visibleHeight: nat, isFocused: bool)
    modifies logs`scroll
    ensures logs.scroll == ScrollAfter(old(logs.scroll), |logs.messages|, visibleHeight, isFocused)
  {
    if !isFocused {
      if |logs.messages| > visibleHeight {
        var currentBottom := logs.scroll + visibleHeight;
        if currentBottom >= SatSub(|logs.messages|, 1) {
          logs.scroll := |logs.messages| - visibleHeight;
        }
      } else {
        logs.scroll := 0;
      }
    } else {
      var maxScroll := SatSub(|logs.messages|, Max(visibleHeight, 1));
      logs.scroll := Min(logs.scroll, maxScroll);
    }
  }

  /** The concatenation of a sequence of strings. */
  function Concat(lines: seq<string>): string {
    if lines == [] then [] else lines[0] + Concat(lines[1..])
  }

  lemma {:induction false} ConcatAppend(a: seq<string>, b: seq<string>)
    ensures Concat(a + b) == Concat(a) + Concat(b)
  {
    if a == [] {
      assert a + b == b;
    } else {
      assert (a + b)[1..] == a[1..] + b;
      ConcatAppend(a[1..], b);
    }
  }

  /**
   * `chunks(width)` on the characters of `s`: consecutive pieces of `width` characters, the
   * last possibly shorter; nothing for an empty string.
   */
  function Chunks(s: string, width: nat): (r: seq<string>)
    requires width > 0
    ensures Concat(r) == s
    ensures forall k | 0 <= k < |r| :: 0 < |r[k]| <= width
    ensures forall k | 0 <= k < |r| - 1 :: |r[k]| == width
    ensures s == [] <==> r == []
    decreases |s|
  {
    if s == [] then []
    else
      var n := Min(width, |s|);
      assert s == s[..n] + s[n..];
      [s[..n]] + Chunks(s[n..], width)
  }

  /**
   * The lines one message is drawn as: the message itself when its UTF-8 byte length fits the
   * width, else its character chunks. Chunking by zero panics, so a zero width is only allowed
   * when the message is empty.
   */
  function MessageLines(msg: string, maxWidth: nat): (r: seq<string>)
    requires maxWidth > 0 || msg == []
    ensures Concat(r) == msg
    ensures |r| >= 1
    ensures forall k | 0 <= k < |r| :: |r[k]| <= maxWidth
    ensures Utf8Len(msg) <= maxWidth ==> r == [msg]
    ensures Utf8Len(msg) > maxWidth ==> forall k | 0 <= k < |r| :: |r[k]| > 0
    ensures Utf8Len(msg) > maxWidth ==> forall k | 0 <= k < |r| - 1 :: |r[k]| == maxWidth
  {
    if Utf8Len(msg) > maxWidth then Chunks(msg, maxWidth) else [msg]
  }

  /** Every message of `msgs` can be wrapped at `maxWidth`. */
  predicate Wrappable(msgs: seq<string>, maxWidth: nat) {
    maxWidth > 0 || forall i | 0 <= i < |msgs| :: msgs[i] == []
  }

  /** The lines of all of `msgs`, in order. */
  function AllLines(msgs: seq<string>, maxWidth: nat): (r: seq<string>)
    requires Wrappable(msgs, maxWidth)
    ensures Concat(r) == Concat(msgs)
    ensures |r| >= |msgs|
  {
    if msgs == [] then []
    else
      var first := MessageLines(msgs[0], maxWidth);
      var rest := AllLines(msgs[1..], maxWidth);
      ConcatAppend(first, rest);
      first + rest
  }

  /**
   * The messages the lazy pipeline reaches can all be wrapped: each message gives at least one
   * line, so with a zero width only the first `budget` messages are reached, and they must be
   * empty.
   */
  predicate ReachedWrappable(msgs: seq<string>, maxWidth: nat, budget: nat) {
    maxWidth > 0 || forall i | 0 <= i < |msgs| && i < budget :: msgs[i] == []
  }

  /**
   * The `flat_map(..).take(budget)` pipeline: lines of successive messages until `budget`
   * lines are produced.
   */
  function WrappedLines(msgs: seq<string>, maxWidth: nat, budget: nat): (r: seq<string>)
    requires ReachedWrappable(msgs, maxWidth, budget)
    ensures |r| <= budget
  {
    if budget == 0 || msgs == [] then []
    else
      var first := MessageLines(msgs[0], maxWidth);
      if |first| >= budget then first[..budget]
      else
        assert maxWidth == 0 ==> |first| == 1;
        assert forall i | 0 <= i < |msgs[1..]| :: msgs[1..][i] == msgs[i + 1];
        first + WrappedLines(msgs[1..], maxWidth, budget - |first|)
  }

  /** Every line the pipeline yields fits the width. */
  lemma {:induction false} WrappedLinesFit(msgs: seq<string>, maxWidth: nat, budget: nat)
    requires ReachedWrappable(msgs, maxWidth, budget)
    ensures forall k | 0 <= k < |WrappedLines(msgs, maxWidth, budget)| :: |WrappedLines(msgs, maxWidth, budget)[k]| <= maxWidth
  {
    if budget > 0 && msgs != [] {
      var first := MessageLines(msgs[0], maxWidth);
      if |first| < budget {
        assert maxWidth == 0 ==> |first| == 1;
        assert forall i | 0 <= i < |msgs[1..]| :: msgs[1..][i] == msgs[i + 1];
        WrappedLinesFit(msgs[1..], maxWidth, budget - |first|);
        var rest := WrappedLines(msgs[1..], maxWidth, budget - |first|);
        assert WrappedLines(msgs, maxWidth, budget) == first + rest;
        AppendFits(first, rest, maxWidth);
      } else {
        assert WrappedLines(msgs, maxWidth, budget) == first[..budget];
      }
    }
  }

  /** Lines that each fit the width still do when two runs of them are joined. */
  lemma AppendFits(a: seq<string>, b: seq<string>, maxWidth: nat)
    requires forall k | 0 <= k < |a| :: |a[k]| <= maxWidth
    requires forall k | 0 <= k < |b| :: |b[k]| <= maxWidth
    ensures forall k | 0 <= k < |a + b| :: |(a + b)[k]| <= maxWidth
  {
  }

  /** The first `n` elements of `s`, or all of it when it is shorter (`take(n)`). */
  function Take<T>(s: seq<T>, n: nat): (r: seq<T>)
    ensures |r| == Min(|s|, n)
  {
    if |s| <= n then s else s[..n]
  }

  lemma TakeAppend<T>(a: seq<T>, b: seq<T>, n: nat)
    ensures |a| >= n ==> Take(a + b, n) == a[..n]
    ensures |a| < n ==> Take(a + b, n) == a + Take(b, n - |a|)
  {
    if |a| >= n {
      assert (a + b)[..n] == a[..n];
    } else if |a + b| > n {
      assert (a + b)[..n] == a + b[..n - |a|];
    }
  }

  /** One step of the pipeline when the first message's lines do not exhaust the budget. */
  lemma WrappedLinesCons(msgs: seq<string>, maxWidth: nat, budget: nat)
    requires maxWidth > 0 && msgs != []
    requires |MessageLines(msgs[0], maxWidth)| < budget
    ensures WrappedLines(msgs, maxWidth, budget)
      == MessageLines(msgs[0], maxWidth) + WrappedLines(msgs[1..], maxWidth, budget - |MessageLines(msgs[0], maxWidth)|)
  {
  }

  /**
   * With a positive width the lazy pipeline gives exactly the first `budget` lines of the
   * flattened wrapping of all the messages.
   */
  lemma {:induction false} WrappedIsTakeOfAll(msgs: seq<string>, maxWidth: nat, budget: nat)
    requires maxWidth > 0
    ensures WrappedLines(msgs, maxWidth, budget) == Take(AllLines(msgs, maxWidth), budget)
  {
    if budget > 0 && msgs != [] {
      var n := |MessageLines(msgs[0], maxWidth)|;
      if n < budget {
        WrappedIsTakeOfAll(msgs[1..], maxWidth, budget - n);
        LaterMessagesStep(msgs, maxWidth, budget);
      } else {
        FirstMessageStep(msgs, maxWidth, budget);
      }
    } else if budget == 0 {
      TakeNothing(AllLines(msgs, maxWidth));
    }
  }

  /** The inductive step when the first message leaves budget for the next ones. */
  lemma LaterMessagesStep(msgs: seq<string>, maxWidth: nat, budget: nat)
    requires maxWidth > 0 && msgs != []
    requires |MessageLines(msgs[0], maxWidth)| < budget
    requires var n := |MessageLines(msgs[0], maxWidth)|;
      WrappedLines(msgs[1..], maxWidth, budget - n) == Take(AllLines(msgs[1..], maxWidth), budget - n)
    ensures WrappedLines(msgs, maxWidth, budget) == Take(AllLines(msgs, maxWidth), budget)
  {
    AllLinesCons(msgs, maxWidth);
    WrappedLinesCons(msgs, maxWidth, budget);
    TakeAfter(MessageLines(msgs[0], maxWidth), AllLines(msgs[1..], maxWidth), budget);
  }

  /** The step when the first message's lines use up the budget. */
  lemma FirstMessageStep(msgs: seq<string>, maxWidth: nat, budget: nat)
    requires maxWidth > 0 && msgs != []
    requires |MessageLines(msgs[0], maxWidth)| >= budget
    ensures WrappedLines(msgs, maxWidth, budget) == Take(AllLines(msgs, maxWidth), budget)
  {
    AllLinesCons(msgs, maxWidth);
    TakeWithin(MessageLines(msgs[0], maxWidth), AllLines(msgs[1..], maxWidth), budget);
  }

  lemma TakeNothing<T>(s: seq<T>)
    ensures Take(s, 0) == []
  {
  }

  /** Taking from a concatenation whose first part is shorter than the budget. */
  lemma TakeAfter<T>(a: seq<T>, b: seq<T>, n: nat)
    requires |a| < n
    ensures Take(a + b, n) == a + Take(b, n - |a|)
  {
    TakeAppend(a, b, n);
  }

  /** Taking from a concatenation whose first part covers the budget. */
  lemma TakeWithin<T>(a: seq<T>, b: seq<T>, n: nat)
    requires |a| >= n
    ensures Take(a + b, n) == a[..n]
  {
    TakeAppend(a, b, n);
  }

  /** One step of the full wrapping. */
  lemma AllLinesCons(msgs: seq<string>, maxWidth: nat)
    requires maxWidth > 0 && msgs != []
    ensures AllLines(msgs, maxWidth) == MessageLines(msgs[0], maxWidth) + AllLines(msgs[1..], maxWidth)
  {
  }

  /** The colour a log line is drawn in. */
  datatype LogColor = Yellow | Red | Gray

  /** Warnings yellow, errors red, everything else gray; the warning test comes first. */
  function LineColor(line: string): (c: LogColor)
    ensures c == Yellow <==> StartsWith(line, "[WARN]")
    ensures c == Red <==> !StartsWith(line, "[WARN]") && StartsWith(line, "[ERROR]")
    ensures c == Gray <==> !StartsWith(line, "[WARN]") && !StartsWith(line, "[ERROR]")
  {
    if StartsWith(line, "[WARN]") then Yellow
    else if StartsWith(line, "[ERROR]") then Red
    else Gray
  }

  /** The messages from the scroll offset on (`skip(scroll)`). */
  function FromScroll(msgs: seq<string>, scroll: nat): (r: seq<string>)
    ensures |r| == SatSub(|msgs|, scroll)
    ensures forall i | 0 <= i < |r| :: r[i] == msgs[scroll + i]
  {
    msgs[Min(scroll, |msgs|)..]
  }

  /**
   * `render_logs` without the drawing: adjust the scroll offset for a panel of `areaHeight` by
   * `areaWidth` cells (a border of one cell all round), then produce the wrapped lines from the
   * offset on, at most one per inner row, with their colours. A panel too narrow to hold a
   * character would chunk by zero, which panics, as soon as a non-empty message is reached.
   */
  method RenderLogs(logs: LogsState, areaHeight: nat, areaWidth: nat, isFocused: bool)
    returns (lines: seq<string>, colors: seq<LogColor>)
    requires
      var visible := SatSub(areaHeight, 2);
      var msgs := FromScroll(logs.messages,
        ScrollAfter(logs.scroll, |logs.messages|, visible, isFocused));
      ReachedWrappable(msgs, SatSub(areaWidth, 2), visible)
    modifies logs`scroll
    ensures logs.scroll == ScrollAfter(old(logs.scroll), |logs.messages|, SatSub(areaHeight, 2), isFocused)
    ensures lines == WrappedLines(FromScroll(logs.messages, logs.scroll), SatSub(areaWidth, 2), SatSub(areaHeight, 2))
    ensures |lines| <= SatSub(areaHeight, 2)
    ensures forall k | 0 <= k < |lines| :: |lines[k]| <= SatSub(areaWidth, 2)
    ensures |colors| == |lines| && forall k | 0 <= k < |lines| :: colors[k] == LineColor(lines[k])
  {
    var visibleHeight := SatSub(areaHeight, 2);
    AdjustScroll(logs, visibleHeight, isFocused);
    var maxWidth := SatSub(areaWidth, 2);
    lines := WrappedLines(FromScroll(logs.messages, logs.scroll), maxWidth, visibleHeight);
    WrappedLinesFit(FromScroll(logs.messages, logs.scroll), maxWidth, visibleHeight);
    colors := seq(|lines|, k requires 0 <= k < |lines| => LineColor(lines[k]));
  }

  /**
   * The narrow-panel panic is reachable: a panel two cells wide has no room inside its border,
   * and a single visible non-empty message then fails the precondition of the drawing.
   */
  lemma NarrowPanelCannotDraw()
    ensures !ReachedWrappable(FromScroll(["x"], ScrollAfter(0, 1, SatSub(3, 2), false)), SatSub(2, 2), SatSub(3, 2))
  {
    assert FromScroll(["x"], 0)[0] == "x";
  }
}
