/** The three fixed line shapes the question parsers recognise, written as
    functions instead of a regular-expression engine:
      question line  `^(\d+)\.\s*(.+)`
      option line    `^[A-D][\.\)]\s*(.+)`
      answer marker  `\(?Correct:\s*([A-D])\)?` with the `i` flag, unanchored
    and the number prefix `^\d+\.\s*` that the short-answer parser removes. */
module LineShapes {
  import opened Wrappers
  import opened Text

  /** The longest run of characters `.` matches (no line terminator). */
  function TakeLine(s: string): (r: string)
    ensures |r| <= |s| && r == s[..|r|]
    ensures forall k | 0 <= k < |r| :: !IsLineTerminator(r[k])
    ensures |r| < |s| ==> IsLineTerminator(s[|r|])
  {
    s[..LineLength(s)]
  }

  /** The largest `k <= hi` at which `(.+)` can start: the greedy `\s*` gives
      back characters until the one after it is not a line terminator. */
  function BacktrackWhitespace(rest: string, hi: nat): (r: Option<nat>)
    requires hi <= |rest|
    ensures r.Some? ==> r.value <= hi && r.value < |rest| && !IsLineTerminator(rest[r.value])
    ensures r.Some? ==> forall k | r.value < k <= hi && k < |rest| :: IsLineTerminator(rest[k])
    ensures r.None? <==> forall k | 0 <= k <= hi && k < |rest| :: IsLineTerminator(rest[k])
    decreases hi
  {
    if hi < |rest| && !IsLineTerminator(rest[hi]) then Some(hi)
    else if hi == 0 then None
    else BacktrackWhitespace(rest, hi - 1)
  }

  /** `\s*(.+)` matched at the start of `rest`: the text `(.+)` captures. */
  function WhitespaceThenText(rest: string): (r: Option<string>)
    ensures r.None? <==>
      forall k | 0 <= k <= LeadingWhitespace(rest) && k < |rest| :: IsLineTerminator(rest[k])
    ensures r.Some? ==> r.value != [] && forall k | 0 <= k < |r.value| :: !IsLineTerminator(r.value[k])
    ensures LeadingWhitespace(rest) < |rest| ==> r == Some(TakeLine(rest[LeadingWhitespace(rest)..]))
  {
    match BacktrackWhitespace(rest, LeadingWhitespace(rest))
    case None => None
    case Some(k) => Some(TakeLine(rest[k..]))
  }

  /** The length of the leading `\d+` when it is followed by `.` (0 otherwise).
      `\d+` cannot give digits back to match the `.`, so only the maximal run counts. */
  function NumberDotLength(line: string): (n: nat)
    ensures n <= |line|
    ensures n > 0 ==> line[n - 1] == '.' && forall k | 0 <= k < n - 1 :: IsDigit(line[k])
    ensures line != [] && !IsDigit(line[0]) ==> n == 0
    ensures n > 0 <==> 0 < LeadingDigits(line) < |line| && line[LeadingDigits(line)] == '.'
    ensures n > 0 ==> n == LeadingDigits(line) + 1
  {
    var d := LeadingDigits(line);
    if d > 0 && d < |line| && line[d] == '.' then d + 1 else 0
  }

  /** The question text of a question line `^(\d+)\.\s*(.+)`, if `line` is one. */
  function QuestionText(line: string): (r: Option<string>)
    ensures r.Some? ==> r.value != [] && NumberDotLength(line) > 0
    ensures NumberDotLength(line) > 0 ==> r == WhitespaceThenText(line[NumberDotLength(line)..])
  {
    var n := NumberDotLength(line);
    if n > 0 then WhitespaceThenText(line[n..]) else None
  }

  predicate IsOptionLetter(c: char) {
    'A' <= c <= 'D'
  }

  /** The text an option line `^[A-D][\.\)]\s*(.+)` captures, if `line` is one. */
  function OptionText(line: string): (r: Option<string>)
    ensures r.Some? ==> |line| >= 2 && r.value != [] && IsOptionLetter(line[0]) && (line[1] == '.' || line[1] == ')')
    ensures |line| >= 2 && IsOptionLetter(line[0]) && (line[1] == '.' || line[1] == ')')
            ==> r == WhitespaceThenText(line[2..])
  {
    if |line| >= 2 && IsOptionLetter(line[0]) && (line[1] == '.' || line[1] == ')')
    then WhitespaceThenText(line[2..])
    else None
  }

  /** Case folding of the `i` flag for the ASCII letters the marker uses; no other
      character folds onto an ASCII letter in a non-Unicode JavaScript pattern. */
  function AsciiLower(c: char): char {
    if 'A' <= c <= 'Z' then (c as int + 32) as char else c
  }

  predicate IsMarkerLetter(c: char) {
    IsOptionLetter(c) || ('a' <= c <= 'd')
  }

  const CorrectWord: string := "correct:"

  /** The word `correct:`, in any case, starts at position `q` of `line`. */
  predicate WordAt(line: string, q: nat)
  {
    q + |CorrectWord| <= |line|
    && forall i | 0 <= i < |CorrectWord| :: AsciiLower(line[q + i]) == CorrectWord[i]
  }

  /** Where the letter of a marker starting at `q` stands: after the word and
      the white space that follows it. */
  function MarkerPosition(line: string, q: nat): nat
    requires q + |CorrectWord| <= |line|
  {
    q + |CorrectWord| + LeadingWhitespace(line[q + |CorrectWord|..])
  }

  /** `Correct:\s*([A-D])` (ignoring case) matched at position `q`: the captured letter. */
  function MarkerAt(line: string, q: nat): (r: Option<char>)
    ensures r.Some? ==> IsMarkerLetter(r.value)
    ensures r.Some? <==>
      WordAt(line, q) && MarkerPosition(line, q) < |line| && IsMarkerLetter(line[MarkerPosition(line, q)])
    ensures r.Some? ==> r.value == line[MarkerPosition(line, q)]
  {
    if WordAt(line, q) then
      var t := line[q + |CorrectWord|..];
      var w := LeadingWhitespace(t);
      if w < |t| && IsMarkerLetter(t[w]) then Some(t[w]) else None
    else None
  }

  /** The leftmost match at or after `q`. The optional parentheses around the
      marker never change which letter the leftmost match captures. */
  function FindMarker(line: string, q: nat): (r: Option<char>)
    requires q <= |line|
    ensures r.Some? ==> IsMarkerLetter(r.value)
    ensures r.None? <==> forall p | q <= p <= |line| :: MarkerAt(line, p).None?
    decreases |line| - q
  {
    match MarkerAt(line, q)
    case Some(c) => Some(c)
    case None => if q == |line| then None else FindMarker(line, q + 1)
  }

  /** No marker matches at any position from `q` up to, but not including, `p`. */
  predicate NoMarkerBetween(line: string, q: nat, p: nat)
  {
    forall p' | q <= p' < p :: MarkerAt(line, p').None?
  }

  /** The match `FindMarker` returns is the one at the least position `p >= q`
      where a marker matches. */
  lemma FindMarkerLeftmost(line: string, q: nat, p: nat)
    requires q <= p <= |line| && MarkerAt(line, p).Some?
    requires NoMarkerBetween(line, q, p)
    ensures FindMarker(line, q) == MarkerAt(line, p)
    decreases p - q
  {
    if q < p {
      FindMarkerLeftmost(line, q + 1, p);
      FindMarkerSkips(line, q, FindMarker(line, q + 1));
    } else {
      FindMarkerStops(line, q);
    }
  }

  /** One step of the search: no match at `q` defers to `q + 1`. */
  lemma FindMarkerSkips(line: string, q: nat, next: Option<char>)
    requires q < |line| && MarkerAt(line, q).None?
    requires FindMarker(line, q + 1) == next
    ensures FindMarker(line, q) == next
  {
  }

  /** A match at `q` is the one returned. */
  lemma FindMarkerStops(line: string, q: nat)
    requires q <= |line| && MarkerAt(line, q).Some?
    ensures FindMarker(line, q) == MarkerAt(line, q)
  {
  }

  /** The answer-marker letter of `line`, if it contains a marker. */
  function MarkerLetter(line: string): (r: Option<char>)
    ensures r.Some? ==> IsMarkerLetter(r.value)
    ensures r.None? <==> forall p | 0 <= p <= |line| :: MarkerAt(line, p).None?
  {
    FindMarker(line, 0)
  }

  /** `letter.toUpperCase().charCodeAt(0) - 'A'.charCodeAt(0)`. */
  function ChoiceIndex(letter: char): (i: nat)
    requires IsMarkerLetter(letter)
    ensures i < 4
    ensures letter as int == 'A' as int + i || letter as int == 'a' as int + i
  {
    if IsOptionLetter(letter) then letter as int - 'A' as int else letter as int - 'a' as int
  }

  /** `line.replace` of the pattern `^\d+\.\s*` by the empty string: the line
      without its question number. */
  function StripNumber(line: string): (r: string)
    ensures NumberDotLength(line) == 0 ==> r == line
    ensures NumberDotLength(line) > 0 ==> r != [] ==> !IsWhitespace(r[0])
    ensures NumberDotLength(line) > 0 ==>
      |r| <= |line| - NumberDotLength(line) && r == line[|line| - |r|..]
      && forall k | NumberDotLength(line) <= k < |line| - |r| :: IsWhitespace(line[k])
  {
    var n := NumberDotLength(line);
    if n > 0 then
      var rest := line[n..];
      rest[LeadingWhitespace(rest)..]
    else line
  }
}
