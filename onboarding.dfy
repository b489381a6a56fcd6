/** Input checks before a device takes part: the player name
    (src/main.ts:348-353) and the join code of a client (src/main.ts:423-427).
    Both inputs go through JavaScript's `String.prototype.trim`. */
module Onboarding {
  import opened Protocol

  /** The characters `trim` removes: ECMAScript WhiteSpace and
      LineTerminator code points. */
  predicate IsSpace(c: char)
  {
    c == ' ' || c == '\t' || c == '\n' || c == '\r'
    || c as int == 0x0B || c as int == 0x0C || c as int == 0xA0 || c as int == 0x1680
    || (0x2000 <= c as int <= 0x200A) || c as int == 0x2028 || c as int == 0x2029
    || c as int == 0x202F || c as int == 0x205F || c as int == 0x3000 || c as int == 0xFEFF
  }

  /** Leading white space removed: the result is the suffix of `s` that
      starts at its first non-space character. */
  function TrimStart(s: string): (r: string)
    ensures |r| <= |s| && r == s[|s| - |r|..]
    ensures forall i :: 0 <= i < |s| - |r| ==> IsSpace(s[i])
    ensures r == [] || !IsSpace(r[0])
  {
    if s != [] && IsSpace(s[0]) then TrimStart(s[1..]) else s
  }

  /** Trailing white space removed: the prefix of `s` that ends at its last
      non-space character. */
  function TrimEnd(s: string): (r: string)
    ensures |r| <= |s| && r == s[..|r|]
    ensures forall i :: |r| <= i < |s| ==> IsSpace(s[i])
    ensures r == [] || !IsSpace(r[|r| - 1])
  {
    if s != [] && IsSpace(s[|s| - 1]) then TrimEnd(s[..|s| - 1]) else s
  }

  /** `trim`: the slice of `s` between its leading and its trailing white
      space. It is empty exactly for an all-blank input; otherwise it starts
      and ends with a non-space character. */
  function Trim(s: string): (r: string)
    ensures var k := |s| - |TrimStart(s)|;
            k + |r| <= |s| && r == s[k..k + |r|]
            && (forall i :: 0 <= i < k ==> IsSpace(s[i]))
            && (forall i :: k + |r| <= i < |s| ==> IsSpace(s[i]))
    ensures r == [] <==> forall i :: 0 <= i < |s| ==> IsSpace(s[i])
    ensures r != [] ==> !IsSpace(r[0]) && !IsSpace(r[|r| - 1])
  {
    var a := TrimStart(s);
    var r := TrimEnd(a);
    SliceOfSuffix(s, a, r);
    r
  }

  /** A prefix `r` of a suffix `a` of `s` is a slice of `s`; what the prefix
      leaves out of `a` is what follows the slice in `s`. */
  lemma SliceOfSuffix(s: string, a: string, r: string)
    requires |a| <= |s| && a == s[|s| - |a|..]
    requires |r| <= |a| && r == a[..|r|]
    requires forall i :: |r| <= i < |a| ==> IsSpace(a[i])
    ensures var k := |s| - |a|;
            k + |r| <= |s| && r == s[k..k + |r|]
            && forall i :: k + |r| <= i < |s| ==> IsSpace(s[i])
  {
    var k := |s| - |a|;
    forall i | k + |r| <= i < |s|
      ensures IsSpace(s[i])
    {
      assert s[i] == a[i - k];
    }
  }

  /** The name check: a blank name is refused with an alert and the game
      does not start; otherwise the trimmed name is the player's name. */
  function CheckName(input: string): (r: Option<string>)
    ensures r.None? <==> forall i :: 0 <= i < |input| ==> IsSpace(input[i])
    ensures r.Some? ==> r.value == Trim(input) && r.value != []
  {
    var name := Trim(input);
    if name == [] then None else Some(name)
  }

  datatype JoinCheck = MissingCode | SelfJoin | Connect(hostId: string)

  /** doJoin's guards, in their order: a blank code is refused, then a code
      equal to the device's own id; only then is a connection opened. */
  function CheckJoin(input: string, ownId: string): (r: JoinCheck)
    ensures r.MissingCode? <==> forall i :: 0 <= i < |input| ==> IsSpace(input[i])
    ensures r.SelfJoin? <==> Trim(input) != [] && Trim(input) == ownId
    ensures r.Connect? ==> r.hostId == Trim(input) && r.hostId != [] && r.hostId != ownId
  {
    var hostId := Trim(input);
    if hostId == [] then MissingCode
    else if hostId == ownId then SelfJoin
    else Connect(hostId)
  }
}
