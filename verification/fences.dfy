/** Cleaning of a completion response before it is parsed as JSON
    (app.py lines 73-74 and 145-146): the response is stripped, every
    match of the pattern ```` ```json\s*|\s*``` ```` is deleted, and the
    remainder is stripped again. */
module Fences {
  import opened Text

  const JsonFence: string := "```json"
  const Fence: string := "```"

  /** The wrapper a completion model typically puts around a JSON answer. */
  function Fenced(s: string): string {
    JsonFence + "\n" + s + "\n" + Fence
  }

  /** The opening fence ```` ```json ```` starts at the front of `s`. */
  predicate JsonFenceAt(s: string) {
    && |s| >= |JsonFence|
    && s[0] == '`' && s[1] == '`' && s[2] == '`'
    && s[3] == 'j' && s[4] == 's' && s[5] == 'o' && s[6] == 'n'
  }

  /** A bare fence of three backticks starts at position `k` of `s`. */
  predicate FenceAt(s: string, k: nat) {
    k + |Fence| <= |s| && s[k] == '`' && s[k + 1] == '`' && s[k + 2] == '`'
  }

  /** `re.sub(r'```json\s*|\s*```', '', s)`, as Python's regex engine runs
      it: scanning left to right, at each position the first alternative
      (the opening fence and the whitespace after it) is tried before the
      second (a whitespace run ending in a bare fence); where neither
      matches, the character is kept. Because whitespace and backticks are
      disjoint, the greedy `\s*` of the second alternative matches exactly
      when the maximal whitespace run is followed by three backticks. */
  function StripFences(s: string): (r: string)
    ensures |r| <= |s|
    decreases |s|
  {
    if |s| == 0 then []
    else if JsonFenceAt(s) then
      var rest := s[|JsonFence|..];
      StripFences(rest[SpaceRun(rest)..])
    else
      var k := SpaceRun(s);
      if FenceAt(s, k) then StripFences(s[k + |Fence|..])
      else [s[0]] + StripFences(s[1..])
  }

  /** Text without backticks passes through fence stripping unchanged. */
  lemma {:induction false} StripWithoutBackticks(s: string)
    requires NoBackticks(s)
    ensures StripFences(s) == s
    decreases |s|
  {
    if |s| > 0 {
      assert !JsonFenceAt(s);
      assert !FenceAt(s, SpaceRun(s));
      assert NoBackticks(s[1..]);
      StripWithoutBackticks(s[1..]);
    }
  }

  /** The full cleaning step applied to a raw completion. */
  function CleanResponse(raw: string): (r: string)
    ensures IsTrimmed(r)
  {
    Trim(StripFences(Trim(raw)))
  }

  /** Where no pattern matches, the first character is kept. */
  lemma StripKeepsFirst(w: string)
    requires |w| > 0 && !JsonFenceAt(w) && !FenceAt(w, SpaceRun(w))
    ensures StripFences(w) == [w[0]] + StripFences(w[1..])
  {
  }

  /** A whitespace run followed by a bare fence is dropped with it. */
  lemma StripAtFence(w: string)
    requires |w| > 0 && !JsonFenceAt(w) && FenceAt(w, SpaceRun(w))
    ensures StripFences(w) == StripFences(w[SpaceRun(w) + |Fence|..])
  {
  }

  /** A newline and a closing fence vanish. */
  lemma StripNewlineFence()
    ensures StripFences("\n" + Fence) == []
  {
    var w := "\n" + Fence;
    assert w == "\n```";
    assert AllSpace(w[..1]);
    SpaceRunUnique(w, 1);
    assert w[1..] == Fence;
    StripAtFence(w);
    assert w[4..] == [];
  }

  /** The whitespace run at the front of `s + tail` ends inside `s` when
      the last character of `s` is not whitespace. */
  lemma SpaceRunStopsInside(s: string, tail: string)
    requires |s| > 0 && !IsSpace(s[|s| - 1])
    ensures SpaceRun(s + tail) < |s|
  {
    assert (s + tail)[|s| - 1] == s[|s| - 1];
  }

  /** One step of `StripClosingFence`: the first character of a
      backtick-free text that does not end in whitespace is kept, whatever
      follows the text. */
  lemma StripClosingStep(s: string, tail: string)
    requires |s| > 0 && NoBackticks(s) && !IsSpace(s[|s| - 1])
    ensures StripFences(s + tail) == [s[0]] + StripFences(s[1..] + tail)
  {
    var w := s + tail;
    assert !JsonFenceAt(w) by {
      assert w[0] == s[0];
    }
    assert !FenceAt(w, SpaceRun(w)) by {
      SpaceRunStopsInside(s, tail);
      assert w[SpaceRun(w)] == s[SpaceRun(w)];
    }
    StripKeepsFirst(w);
    assert w[1..] == s[1..] + tail;
  }

  /** A backtick-free text that does not end in whitespace survives
      fence stripping intact, whatever follows it. */
  lemma {:induction false} StripKeepsText(s: string, tail: string)
    requires NoBackticks(s)
    requires |s| == 0 || !IsSpace(s[|s| - 1])
    ensures StripFences(s + tail) == s + StripFences(tail)
    decreases |s|
  {
    if |s| == 0 {
      assert s + tail == tail;
    } else {
      calc {
        StripFences(s + tail);
      == { StripClosingStep(s, tail); }
        [s[0]] + StripFences(s[1..] + tail);
      == { StripKeepsText(s[1..], tail); }
        [s[0]] + (s[1..] + StripFences(tail));
      == { assert [s[0]] + s[1..] == s; }
        s + StripFences(tail);
      }
    }
  }

  /** Such a text followed by a newline and a closing fence loses exactly
      the newline and the fence. */
  lemma StripClosingFence(s: string)
    requires NoBackticks(s)
    requires |s| == 0 || !IsSpace(s[|s| - 1])
    ensures StripFences(s + "\n" + Fence) == s
  {
    assert s + "\n" + Fence == s + ("\n" + Fence);
    StripKeepsText(s, "\n" + Fence);
    StripNewlineFence();
  }

  /** A bare closing fence disappears entirely. */
  lemma StripBareFence()
    ensures StripFences(Fence) == []
  {
    assert Fence[..0] == [];
    SpaceRunUnique(Fence, 0);
    StripAtFence(Fence);
    assert Fence[|Fence|..] == [];
  }

  /** An opening fence is dropped together with the whitespace after it. */
  lemma StripOpeningFence(rest: string)
    ensures StripFences(JsonFence + rest) == StripFences(rest[SpaceRun(rest)..])
  {
    var w := JsonFence + rest;
    assert JsonFenceAt(w);
    assert w[|JsonFence|..] == rest;
  }

  /** What follows the opening fence of a fenced answer — a newline, the
      answer, a newline and the closing fence — strips to the answer once
      the leading newline is gone. */
  lemma StripFencedBody(s: string)
    requires IsTrimmed(s) && NoBackticks(s)
    ensures var rest := "\n" + s + "\n" + Fence;
      StripFences(rest[SpaceRun(rest)..]) == s
  {
    var rest := "\n" + s + "\n" + Fence;
    if |s| == 0 {
      assert rest == "\n\n```";
      assert AllSpace(rest[..2]);
      SpaceRunUnique(rest, 2);
      assert rest[2..] == Fence;
      StripBareFence();
    } else {
      assert rest[..1] == "\n";
      assert rest[1] == s[0];
      SpaceRunUnique(rest, 1);
      assert rest[1..] == s + "\n" + Fence;
      StripClosingFence(s);
    }
  }

  /** Stripping a fenced answer leaves exactly the answer: the opening
      fence goes with the newline after it, the closing fence with the
      newline before it. */
  lemma StripFenced(s: string)
    requires IsTrimmed(s) && NoBackticks(s)
    ensures StripFences(Fenced(s)) == s
  {
    var rest := "\n" + s + "\n" + Fence;
    assert Fenced(s) == JsonFence + rest;
    StripOpeningFence(rest);
    StripFencedBody(s);
  }

  /** A fenced JSON answer cleans to exactly the unfenced answer, which is
      itself left unchanged by cleaning: the fenced and the bare response
      are handed to the parser as the same text. */
  lemma FencedRoundTrip(s: string)
    requires IsTrimmed(s) && NoBackticks(s)
    ensures CleanResponse(Fenced(s)) == s
    ensures CleanResponse(s) == s
  {
    var w := Fenced(s);
    assert w[0] == '`' && w[|w| - 1] == '`';
    TrimOfTrimmed(w);
    StripFenced(s);
    TrimOfTrimmed(s);
    StripWithoutBackticks(s);
  }

  /** For a response without backticks the cleaning step is a plain
      `strip()`: nothing inside the text changes. */
  lemma CleanWithoutBackticks(raw: string)
    requires NoBackticks(raw)
    ensures CleanResponse(raw) == Trim(raw)
  {
    TrimKeepsNoBackticks(raw);
    StripWithoutBackticks(Trim(raw));
    TrimIdempotent(raw);
  }
}
