/** The chat panel's input box: the submit guard on trimmed text, the
    input reset, and when the host's spotlight button is shown. */
module ChatPanel {
  import opened Wrappers

  /** The characters JavaScript's `String.prototype.trim` strips: the
      WhiteSpace and LineTerminator code points of ECMAScript. */
  predicate IsTrimmable(c: char) {
    var n := c as int;
    || n == 0x09 || n == 0x0A || n == 0x0B || n == 0x0C || n == 0x0D || n == 0x20
    || n == 0xA0 || n == 0x1680 || (0x2000 <= n <= 0x200A)
    || n == 0x2028 || n == 0x2029 || n == 0x202F || n == 0x205F || n == 0x3000 || n == 0xFEFF
  }

  predicate AllTrimmable(s: string) {
    forall i :: 0 <= i < |s| ==> IsTrimmable(s[i])
  }

  /** `s` with its leading trimmable characters removed. */
  function TrimStart(s: string): (r: string)
    ensures |r| <= |s| && r == s[|s| - |r|..]
    ensures AllTrimmable(s[..|s| - |r|])
    ensures r == [] || !IsTrimmable(r[0])
  {
    if |s| > 0 && IsTrimmable(s[0]) then
      var r := TrimStart(s[1..]);
      assert s[..|s| - |r|] == [s[0]] + s[1..][..|s| - 1 - |r|];
      r
    else s
  }

  /** `s` with its trailing trimmable characters removed. */
  function TrimEnd(s: string): (r: string)
    ensures |r| <= |s| && r == s[..|r|]
    ensures AllTrimmable(s[|r|..])
    ensures r == [] || !IsTrimmable(r[|r| - 1])
  {
    if |s| > 0 && IsTrimmable(s[|s| - 1]) then
      var r := TrimEnd(s[..|s| - 1]);
      assert s[|r|..] == s[..|s| - 1][|r|..] + [s[|s| - 1]];
      r
    else s
  }

  function Trim(s: string): string {
    TrimEnd(TrimStart(s))
  }

  /** The trimmed text is the middle of the input: everything before and
      after it is trimmable, and it neither starts nor ends with a
      trimmable character. */
  lemma TrimIsCore(s: string) returns (i: nat, j: nat)
    ensures i <= j <= |s| && Trim(s) == s[i..j]
    ensures AllTrimmable(s[..i]) && AllTrimmable(s[j..])
    ensures Trim(s) == [] || (!IsTrimmable(Trim(s)[0]) && !IsTrimmable(Trim(s)[|Trim(s)| - 1]))
  {
    var t := TrimStart(s);
    var r := TrimEnd(t);
    i := |s| - |t|;
    j := i + |r|;
    assert t == s[i..];
    assert r == s[i..j];
    assert t[|r|..] == s[j..];
    assert AllTrimmable(s[..i]);
    assert AllTrimmable(s[j..]);
  }

  /** Trimming leaves nothing exactly when every character is trimmable. */
  lemma TrimEmptyIffBlank(s: string)
    ensures Trim(s) == [] <==> AllTrimmable(s)
  {
  }

  /** What a submit does: the text handed to the send callback, if any,
      and the input box's contents afterwards. */
  datatype SubmitOutcome = SubmitOutcome(sent: Option<string>, input: string)

  /** The submit handler: sends the untrimmed text once and clears the box
      when the trimmed text is non-empty, and otherwise does nothing. */
  function Submit(input: string): (o: SubmitOutcome)
    ensures o.sent.Some? <==> !AllTrimmable(input)
    ensures o.sent.Some? ==> o.sent.value == input && o.input == ""
    ensures o.sent.None? ==> o.input == input
  {
    TrimEmptyIffBlank(input);
    if Trim(input) != [] then SubmitOutcome(Some(input), "") else SubmitOutcome(None, input)
  }

  /** The star button on each message needs both the host role and a
      feature callback. */
  function FeatureButtonShown(isHost: bool, hasFeatureCallback: bool): (shown: bool)
    ensures shown <==> isHost && hasFeatureCallback
  {
    isHost && hasFeatureCallback
  }
}
