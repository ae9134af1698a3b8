/** The downloadable secret-key block that both modules write for the
    lattice schemes: a BEGIN line, the base64 payload on a line of its own,
    an empty line, the scheme's parameter lines, the security level, the
    generation time, and an END line. */
module KeyBlock {
  import opened Text

  function BeginLine(scheme: string): string {
    "-----BEGIN " + scheme + " SECRET KEY-----"
  }

  function EndLine(scheme: string): string {
    "-----END " + scheme + " SECRET KEY-----"
  }

  /** The lines of the block for the scheme named `scheme`, with `details` the
      scheme-specific parameter lines. */
  function BlockLines(scheme: string, key: string, details: seq<string>, securityLevel: nat, generated: string): (ls: seq<string>)
    ensures |ls| == |details| + 6
  {
    [BeginLine(scheme), key, ""] + details
      + ["Security Level: " + NatText(securityLevel) + "-bit", "Generated: " + generated, EndLine(scheme)]
  }

  /** The block as one text, its lines separated by line feeds. */
  function Block(scheme: string, key: string, details: seq<string>, securityLevel: nat, generated: string): string {
    JoinLines(BlockLines(scheme, key, details, securityLevel, generated))
  }

  predicate NoLineFeed(ss: seq<string>) {
    forall i :: 0 <= i < |ss| ==> '\n' !in ss[i]
  }

  lemma NatTextNoLineFeed(n: nat)
    ensures '\n' !in NatText(n)
  {
    var s := NatText(n);
    assert forall i :: 0 <= i < |s| ==> IsDigit(s[i]);
  }

  /** Splitting the block on line feeds gives its lines back when no piece
      holds a line feed of its own. */
  lemma BlockAsLines(scheme: string, key: string, details: seq<string>, securityLevel: nat, generated: string)
    requires '\n' !in scheme && '\n' !in key && '\n' !in generated && NoLineFeed(details)
    ensures Lines(Block(scheme, key, details, securityLevel, generated)) == BlockLines(scheme, key, details, securityLevel, generated)
  {
    var ls := BlockLines(scheme, key, details, securityLevel, generated);
    NatTextNoLineFeed(securityLevel);
    assert forall i :: 0 <= i < |ls| ==> '\n' !in ls[i] by {
      forall i | 0 <= i < |ls|
        ensures '\n' !in ls[i]
      {
        if 3 <= i < 3 + |details| {
          assert ls[i] == details[i - 3];
        }
      }
    }
    LinesOfJoin(ls);
  }
}
