/** The acknowledgement wait of `send_command`.

    After writing a command the script reads lines from the motion
    controller, strips each one of surrounding whitespace, and stops at the
    first line that is then exactly `ok`. A read that times out yields
    whatever arrived before the timeout, possibly nothing, so one reply may
    come in split over several lines, none of which is `ok`. The lines
    the controller will send are given here as a finite sequence; running
    out of them stands for the script waiting forever.
 */
module Ack {
  import opened Wrappers

  /** The characters Python's `str.strip()` removes by default: those for
      which `str.isspace()` holds. */
  predicate IsSpace(c: char) {
    var k := c as int;
    || (0x09 <= k <= 0x0D) || (0x1C <= k <= 0x20)
    || k == 0x85 || k == 0xA0 || k == 0x1680
    || (0x2000 <= k <= 0x200A) || k == 0x2028 || k == 0x2029
    || k == 0x202F || k == 0x205F || k == 0x3000
  }

  predicate AllSpace(s: string) {
    forall i :: 0 <= i < |s| ==> IsSpace(s[i])
  }

  /** `s` is `core` with only whitespace before it (the first `i` characters)
      and after it. */
  predicate PaddedAt(s: string, core: string, i: nat) {
    && i + |core| <= |s|
    && s[i..i + |core|] == core
    && AllSpace(s[..i])
    && AllSpace(s[i + |core|..])
  }

  /** Number of whitespace characters at the start of `s`. */
  function LeadingSpaces(s: string): (k: nat)
    ensures k <= |s|
    ensures AllSpace(s[..k])
    ensures k < |s| ==> !IsSpace(s[k])
  {
    if |s| == 0 || !IsSpace(s[0]) then 0
    else
      var k := 1 + LeadingSpaces(s[1..]);
      assert s[..k] == [s[0]] + s[1..][..k - 1];
      k
  }

  /** `s.strip()`: `s` with whitespace removed from both ends until neither
      end is whitespace (characterised by `StripSpec`). */
  function Strip(s: string): string {
    if |s| > 0 && IsSpace(s[0]) then Strip(s[1..])
    else if |s| > 0 && IsSpace(s[|s| - 1]) then Strip(s[..|s| - 1])
    else s
  }

  /** The test the wait loop applies to each line. */
  predicate IsAck(line: string) {
    Strip(line) == "ok"
  }

  /** Runs the wait loop over the lines the controller sends. The result is
      the number of lines the loop consumes, or `None` when the lines run out
      before an acknowledgement, in which case the script never returns
      (see `WaitAckFindsFirstAck`). */
  function WaitAck(lines: seq<string>): (r: Option<nat>)
    ensures r.Some? ==> 0 < r.value <= |lines|
  {
    if |lines| == 0 then None
    else if IsAck(lines[0]) then Some(1)
    else
      match WaitAck(lines[1..])
      case None => None
      case Some(k) => Some(k + 1)
  }

  /** The number of acknowledgement lines in `lines`. */
  function AckCount(lines: seq<string>): nat {
    if |lines| == 0 then 0
    else (if IsAck(lines[0]) then 1 else 0) + AckCount(lines[1..])
  }

  // ---------------------------------------------------------------------
  // Properties
  // ---------------------------------------------------------------------

  /** The stripped line is empty exactly when the line is all whitespace;
      otherwise it starts and ends with a non-whitespace character, and the
      line is the stripped line with only whitespace before and after it. */
  lemma StripSpec(s: string)
    ensures AllSpace(s) <==> Strip(s) == []
    ensures Strip(s) != [] ==> !IsSpace(Strip(s)[0]) && !IsSpace(Strip(s)[|Strip(s)| - 1])
    ensures PaddedAt(s, Strip(s), LeadingSpaces(s))
  {
    StripEmpty(s);
    StripEnds(s);
    StripPads(s);
  }

  lemma AllSpaceConcat(a: string, b: string)
    ensures AllSpace(a + b) <==> AllSpace(a) && AllSpace(b)
  {
    if AllSpace(a + b) {
      forall j | 0 <= j < |a| ensures IsSpace(a[j]) {
        assert a[j] == (a + b)[j];
      }
      forall j | 0 <= j < |b| ensures IsSpace(b[j]) {
        assert b[j] == (a + b)[|a| + j];
      }
    }
  }

  lemma {:induction false} StripEmpty(s: string)
    ensures AllSpace(s) <==> Strip(s) == []
  {
    if |s| > 0 && IsSpace(s[0]) {
      StripEmpty(s[1..]);
      AllSpaceConcat([s[0]], s[1..]);
      assert s == [s[0]] + s[1..];
    } else if |s| > 0 && IsSpace(s[|s| - 1]) {
      var init := s[..|s| - 1];
      StripEmpty(init);
      AllSpaceConcat(init, [s[|s| - 1]]);
      assert s == init + [s[|s| - 1]];
    }
  }

  lemma {:induction false} StripEnds(s: string)
    ensures Strip(s) != [] ==> !IsSpace(Strip(s)[0]) && !IsSpace(Strip(s)[|Strip(s)| - 1])
  {
    if |s| > 0 && IsSpace(s[0]) {
      StripEnds(s[1..]);
    } else if |s| > 0 && IsSpace(s[|s| - 1]) {
      StripEnds(s[..|s| - 1]);
    }
  }

  /** One more whitespace character in front keeps a core padded. */
  lemma PadLeft(c: char, t: string, core: string, i: nat)
    requires IsSpace(c) && PaddedAt(t, core, i)
    ensures PaddedAt([c] + t, core, i + 1)
  {
    var s := [c] + t;
    assert s[i + 1..i + 1 + |core|] == t[i..i + |core|];
    assert s[..i + 1] == [c] + t[..i];
    AllSpaceConcat([c], t[..i]);
    assert s[i + 1 + |core|..] == t[i + |core|..];
  }

  /** One more whitespace character behind keeps a core padded. */
  lemma PadRight(t: string, c: char, core: string, i: nat)
    requires IsSpace(c) && PaddedAt(t, core, i)
    ensures PaddedAt(t + [c], core, i)
  {
    var s := t + [c];
    assert s[i..i + |core|] == t[i..i + |core|];
    assert s[..i] == t[..i];
    assert s[i + |core|..] == t[i + |core|..] + [c];
    AllSpaceConcat(t[i + |core|..], [c]);
  }

  lemma {:induction false} StripPads(s: string)
    ensures PaddedAt(s, Strip(s), LeadingSpaces(s))
  {
    if |s| > 0 && IsSpace(s[0]) {
      var tail := s[1..];
      StripPads(tail);
      assert s == [s[0]] + tail;
      PadLeft(s[0], tail, Strip(tail), LeadingSpaces(tail));
    } else if |s| > 0 && IsSpace(s[|s| - 1]) {
      var init := s[..|s| - 1];
      StripPads(init);
      assert init[0] == s[0];
      assert s == init + [s[|s| - 1]];
      PadRight(init, s[|s| - 1], Strip(init), LeadingSpaces(init));
    } else {
      assert s[..0] == [] && s[|s|..] == [];
    }
  }

  /** Stripping is determined by the padding: whatever whitespace surrounds
      a core that neither starts nor ends with whitespace, `strip` returns
      exactly that core. */
  lemma StripPadded(s: string, core: string, i: nat)
    requires PaddedAt(s, core, i)
    requires core != [] && !IsSpace(core[0]) && !IsSpace(core[|core| - 1])
    ensures Strip(s) == core
  {
    var r, j := Strip(s), LeadingSpaces(s);
    StripSpec(s);
    assert s[i] == core[0];
    assert !IsSpace(s[i]);
    assert !AllSpace(s);
    assert !IsSpace(s[j]);
    assert forall k :: 0 <= k < i ==> IsSpace(s[k]) by {
      forall k | 0 <= k < i ensures IsSpace(s[k]) {
        assert s[k] == s[..i][k];
      }
    }
    assert forall k :: 0 <= k < j ==> IsSpace(s[k]) by {
      forall k | 0 <= k < j ensures IsSpace(s[k]) {
        assert s[k] == s[..j][k];
      }
    }
    assert i == j;
    var e1, e2 := i + |core| - 1, i + |r| - 1;
    assert s[e1] == core[|core| - 1];
    assert s[e2] == r[|r| - 1];
    assert !IsSpace(s[e1]) && !IsSpace(s[e2]);
    assert forall k :: i + |core| <= k < |s| ==> IsSpace(s[k]) by {
      forall k | i + |core| <= k < |s| ensures IsSpace(s[k]) {
        assert s[k] == s[i + |core|..][k - (i + |core|)];
      }
    }
    assert forall k :: i + |r| <= k < |s| ==> IsSpace(s[k]) by {
      forall k | i + |r| <= k < |s| ensures IsSpace(s[k]) {
        assert s[k] == s[i + |r|..][k - (i + |r|)];
      }
    }
    assert |r| == |core|;
  }

  /** A line is an acknowledgement exactly when it is `ok` surrounded by
      nothing but whitespace (a trailing newline, a carriage return, ...). */
  lemma AckIffPaddedOk(line: string)
    ensures IsAck(line) <==> exists i: nat :: PaddedAt(line, "ok", i)
  {
    StripSpec(line);
    if exists i: nat :: PaddedAt(line, "ok", i) {
      var i: nat :| PaddedAt(line, "ok", i);
      StripPadded(line, "ok", i);
    }
  }

  /** The wait stops at the first acknowledgement and at nothing earlier,
      and it produces no result exactly when no line is an acknowledgement. */
  lemma {:induction false} WaitAckFindsFirstAck(lines: seq<string>)
    ensures WaitAck(lines).Some? ==> IsAck(lines[WaitAck(lines).value - 1])
    ensures WaitAck(lines).Some? ==> forall j :: 0 <= j < WaitAck(lines).value - 1 ==> !IsAck(lines[j])
    ensures WaitAck(lines).None? <==> forall j :: 0 <= j < |lines| ==> !IsAck(lines[j])
  {
    if |lines| > 0 && !IsAck(lines[0]) {
      var tail := lines[1..];
      WaitAckFindsFirstAck(tail);
      if WaitAck(tail).None? {
        forall j | 0 <= j < |lines| ensures !IsAck(lines[j]) {
          if j > 0 {
            assert lines[j] == tail[j - 1];
          }
        }
      } else {
        var k := WaitAck(tail).value;
        assert lines[k] == tail[k - 1];
        forall j | 0 <= j < k ensures !IsAck(lines[j]) {
          if j > 0 {
            assert lines[j] == tail[j - 1];
          }
        }
      }
    }
  }

  /** A reply split by a read timeout into `"o"` and `"k\n"` is two lines,
      neither of which is an acknowledgement. */
  lemma SplitReplyIsNoAck()
    ensures WaitAck(["o", "k\n"]) == None
    ensures AckCount(["o", "k\n"]) == 0
  {
    assert Strip("o") == "o";
    assert Strip("k\n") == "k";
  }

  /** The wait consumes exactly one acknowledgement, and finds none only when
      there is none. */
  lemma {:induction false} WaitAckConsumesOne(lines: seq<string>)
    ensures WaitAck(lines).None? <==> AckCount(lines) == 0
    ensures WaitAck(lines).Some? ==> AckCount(lines[WaitAck(lines).value..]) == AckCount(lines) - 1
  {
    if |lines| > 0 {
      WaitAckConsumesOne(lines[1..]);
      if !IsAck(lines[0]) && WaitAck(lines[1..]).Some? {
        var k := WaitAck(lines[1..]).value;
        assert lines[k + 1..] == lines[1..][k..];
      }
    }
  }
}
