/** The fixer's token buffer: the text of every token, edited in place by
    the rules' fixes. An edit made while no changeset is open is applied at
    once; inside a changeset edits are queued per token (the last one wins)
    and applied together when the changeset ends. */
module Fixing {

  /** The buffer with the queued replacements applied. */
  function Applied(buffer: seq<string>, changes: map<nat, string>): (r: seq<string>)
    ensures |r| == |buffer|
    ensures forall i :: 0 <= i < |buffer| ==> r[i] == (if i in changes then changes[i] else buffer[i])
  {
    seq(|buffer|, i requires 0 <= i < |buffer| => if i in changes then changes[i] else buffer[i])
  }

  /** `str_repeat(' ', n)`. */
  function Padding(n: nat): (r: string)
    ensures |r| == n
    ensures forall i :: 0 <= i < n ==> r[i] == ' '
  {
    if n == 0 then "" else Padding(n - 1) + " "
  }

  class Fixer {
    var buffer: seq<string>
    var changeset: map<nat, string>
    var inChangeset: bool

    ghost predicate Valid()
      reads this
    {
      && (forall p :: p in changeset ==> p < |buffer|)
      && (!inChangeset ==> changeset == map[])
    }

    /** `getTokenContent`: the queued value inside a changeset, else the buffer's. */
    function Content(p: nat): string
      reads this
      requires p < |buffer|
    {
      if inChangeset && p in changeset then changeset[p] else buffer[p]
    }

    /** The buffer as it reads once the open changeset (if any) is applied. */
    ghost function Pending(): (r: seq<string>)
      reads this
      requires Valid()
      ensures |r| == |buffer|
      ensures forall p :: 0 <= p < |buffer| ==> r[p] == Content(p)
      ensures !inChangeset ==> r == buffer
    {
      Applied(buffer, changeset)
    }

    constructor (contents: seq<string>)
      ensures Valid()
      ensures buffer == contents && changeset == map[] && !inChangeset
    {
      buffer := contents;
      changeset := map[];
      inChangeset := false;
    }

    /** `beginChangeset`: changesets do not nest. */
    method BeginChangeset()
      requires Valid() && !inChangeset
      modifies this
      ensures Valid() && inChangeset
      ensures buffer == old(buffer) && changeset == map[]
    {
      changeset := map[];
      inChangeset := true;
    }

    /** `replaceToken`: sets the text of token `p`. */
    method ReplaceToken(p: nat, content: string)
      requires Valid() && p < |buffer|
      modifies this
      ensures Valid() && inChangeset == old(inChangeset) && |buffer| == old(|buffer|)
      ensures Pending() == old(Pending())[p := content]
      ensures inChangeset ==> buffer == old(buffer)
    {
      if inChangeset {
        changeset := changeset[p := content];
      } else {
        buffer := buffer[p := content];
      }
    }

    /** `addContent`: appends to the text of token `p`. */
    method AddContent(p: nat, content: string)
      requires Valid() && p < |buffer|
      modifies this
      ensures Valid() && inChangeset == old(inChangeset) && |buffer| == old(|buffer|)
      ensures Pending() == old(Pending())[p := old(Pending())[p] + content]
      ensures inChangeset ==> buffer == old(buffer)
    {
      ReplaceToken(p, Content(p) + content);
    }

    /** `addContentBefore`: prepends to the text of token `p`. */
    method AddContentBefore(p: nat, content: string)
      requires Valid() && p < |buffer|
      modifies this
      ensures Valid() && inChangeset == old(inChangeset) && |buffer| == old(|buffer|)
      ensures Pending() == old(Pending())[p := content + old(Pending())[p]]
      ensures inChangeset ==> buffer == old(buffer)
    {
      ReplaceToken(p, content + Content(p));
    }

    /** `addNewline`: appends the end-of-line character, here "\n". */
    method AddNewline(p: nat)
      requires Valid() && p < |buffer|
      modifies this
      ensures Valid() && inChangeset == old(inChangeset) && |buffer| == old(|buffer|)
      ensures Pending() == old(Pending())[p := old(Pending())[p] + "\n"]
      ensures inChangeset ==> buffer == old(buffer)
    {
      AddContent(p, "\n");
    }

    /** `endChangeset`: applies every queued edit at once. */
    method EndChangeset()
      requires Valid() && inChangeset
      modifies this
      ensures Valid() && !inChangeset
      ensures buffer == old(Pending())
    {
      buffer := Applied(buffer, changeset);
      changeset := map[];
      inChangeset := false;
    }
  }
}
