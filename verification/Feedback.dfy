/** The bounds on repair feedback (`safe_failure_summary` in backend/app/agents/repairs.py). */
module Feedback {
  import opened Utf8

  const MAX_FAILURE_FEEDBACK_BYTES := 4096
  const MARKER := "\n[feedback truncated]"

  lemma MarkerSize()
    ensures |MARKER| == 21 && Size(MARKER) == 21
  {
    var marker := MARKER;
    assert forall i | 0 <= i < |marker| :: marker[i] < '\U{80}';
    AsciiSize(marker);
  }

  function CharCut(text: string, marker: string, maxChars: nat): string
    requires |marker| <= maxChars
  {
    if |text| > maxChars then text[..maxChars - |marker|] + marker else text
  }

  /** The character cut, then the byte cut. */
  function Shortened(t: string, marker: string, maxChars: nat, maxBytes: nat): string
    requires |marker| <= maxChars && |marker| <= maxBytes
  {
    var cut := CharCut(t, marker, maxChars);
    if Size(cut) <= maxBytes then cut else BytePrefix(cut, maxBytes - |marker|) + marker
  }

  /** Redaction happens first and may return anything. */
  function SafeFailureSummary(redact: string -> string, text: string, maxChars: nat): string
    requires |MARKER| <= maxChars
  {
    Shortened(redact(text), MARKER, maxChars, MAX_FAILURE_FEEDBACK_BYTES)
  }

  /** How long a shortened text is. */
  predicate Bounded(t: string, marker: string, maxChars: nat, maxBytes: nat, r: string)
    requires |marker| <= maxChars && |marker| <= maxBytes
  {
    var cut := CharCut(t, marker, maxChars);
    && Size(r) <= maxBytes
    && (|r| <= maxChars <==> Size(cut) <= maxBytes || Fitting(cut, maxBytes - |marker|) <= maxChars - |marker|)
    && (maxChars >= maxBytes ==> |r| <= maxChars)
  }

  lemma ShortenedIsBounded(t: string, marker: string, maxChars: nat, maxBytes: nat)
    requires |marker| <= maxChars && |marker| <= maxBytes && Size(marker) == |marker|
    ensures Bounded(t, marker, maxChars, maxBytes, Shortened(t, marker, maxChars, maxBytes))
  {
    var cut, limit := CharCut(t, marker, maxChars), maxBytes - |marker|;
    PrefixIsFitting(cut, limit);
    FittingFits(cut, limit);
    SizeOfConcat(BytePrefix(cut, limit), marker);
    SizeBounds(Shortened(t, marker, maxChars, maxBytes));
  }

  /**
   Feedback never exceeds 4096 bytes. It exceeds the configured character limit exactly when the
   byte cut fires on text dense enough that the characters kept leave no room for the marker.
   */
  lemma FeedbackIsBounded(redact: string -> string, text: string, maxChars: nat)
    requires |MARKER| <= maxChars
    ensures var r, cut := SafeFailureSummary(redact, text, maxChars), CharCut(redact(text), MARKER, maxChars);
            && Size(r) <= 4096
            && (|r| <= maxChars <==> Size(cut) <= 4096 || Fitting(cut, 4075) <= maxChars - 21)
            && (maxChars >= 4096 ==> |r| <= maxChars)
  {
    MarkerSize();
    ShortenedIsBounded(redact(text), MARKER, maxChars, MAX_FAILURE_FEEDBACK_BYTES);
  }

  /** The longest prefix of at most so many characters and bytes. */
  predicate Longest(text: string, room: nat, bytes: nat, n: nat)
    requires room <= |text|
  {
    n <= room && Size(text[..n]) <= bytes && (n < room ==> Size(text[..n + 1]) > bytes)
  }

  lemma CutIsLongest(text: string, room: nat, tail: string, limit: nat)
    requires room <= |text| && Size(text[..room]) > limit
    ensures var k := Fitting(text[..room] + tail, limit);
            k < room && (text[..room] + tail)[..k] == text[..k] && Size(text[..k]) <= limit && Size(text[..k + 1]) > limit
  {
    var cut := text[..room] + tail;
    var k := Fitting(cut, limit);
    FittingFits(cut, limit);
    if k >= room {
      assert cut[..k] == text[..room] + tail[..k - room];
      SizeOfConcat(text[..room], tail[..k - room]);
    } else {
      assert cut[..k] == text[..k] && cut[..k + 1] == text[..k + 1];
    }
  }

  /** The first `n` characters are kept: all of them within both limits, or the longest prefix that leaves room for the marker. */
  predicate Keeps(t: string, marker: string, maxChars: nat, maxBytes: nat, n: nat, r: string)
    requires |marker| <= maxChars && |marker| <= maxBytes && n <= |t|
  {
    if |t| <= maxChars && Size(t) <= maxBytes then n == |t| && r == t
    else
      && Longest(t, if |t| > maxChars then maxChars - |marker| else |t|, maxBytes - |marker|, n)
      && r == t[..n] + marker
  }

  ghost predicate Shortens(t: string, marker: string, maxChars: nat, maxBytes: nat, r: string)
    requires |marker| <= maxChars && |marker| <= maxBytes
  {
    exists n: nat :: n <= |t| && Keeps(t, marker, maxChars, maxBytes, n, r)
  }

  lemma ShortenedShortens(t: string, marker: string, maxChars: nat, maxBytes: nat)
    requires |marker| <= maxChars && |marker| <= maxBytes && Size(marker) == |marker|
    ensures Shortens(t, marker, maxChars, maxBytes, Shortened(t, marker, maxChars, maxBytes))
  {
    var limit, r := maxBytes - |marker|, Shortened(t, marker, maxChars, maxBytes);
    if |t| > maxChars {
      var room := maxChars - |marker|;
      var cut := t[..room] + marker;
      SizeOfConcat(t[..room], marker);
      if Size(cut) <= maxBytes {
        assert Keeps(t, marker, maxChars, maxBytes, room, r);
      } else {
        CutIsLongest(t, room, marker, limit);
        PrefixIsFitting(cut, limit);
        assert Keeps(t, marker, maxChars, maxBytes, Fitting(cut, limit), r);
      }
    } else if Size(t) > maxBytes {
      assert t[..|t|] == t && t + "" == t;
      CutIsLongest(t, |t|, "", limit);
      PrefixIsFitting(t, limit);
      assert Keeps(t, marker, maxChars, maxBytes, Fitting(t, limit), r);
    } else {
      assert Keeps(t, marker, maxChars, maxBytes, |t|, r);
    }
  }

  /**
   Redacted text within both limits is handed over as it is. Of any other, the longest prefix that
   leaves room for the marker in both limits is, with the marker once at its end.
   */
  lemma FeedbackSays(redact: string -> string, text: string, maxChars: nat)
    requires |MARKER| <= maxChars
    ensures |MARKER| <= MAX_FAILURE_FEEDBACK_BYTES
    ensures Shortens(redact(text), MARKER, maxChars, MAX_FAILURE_FEEDBACK_BYTES, SafeFailureSummary(redact, text, maxChars))
  {
    MarkerSize();
    ShortenedShortens(redact(text), MARKER, maxChars, MAX_FAILURE_FEEDBACK_BYTES);
  }

  function Euros(n: nat): string {
    seq(n, i => '\U{20AC}')
  }

  lemma {:induction false} EurosFit(n: nat, limit: nat)
    ensures Size(Euros(n)) == 3 * n
    ensures Fitting(Euros(n), limit) == if 3 * n <= limit then n else limit / 3
    decreases n
  {
    if n > 0 {
      assert Euros(n)[1..] == Euros(n - 1);
      EurosFit(n - 1, if limit >= 3 then limit - 3 else 0);
    }
  }

  /** 1366 characters of three bytes each, allowed by a limit of 1366, come back as 1379 characters. */
  lemma CharacterLimitCanBeExceeded()
    ensures |SafeFailureSummary(s => s, Euros(1366), 1366)| == 1379
  {
    MarkerSize();
    EurosFit(1366, 4075);
    PrefixIsFitting(Euros(1366), 4075);
  }
}
