/** The cached prefix: one message, and the buckets it is charged to. */
module SystemBlock {
  import opened Conversation

  /** What follows the system text, empty blocks left out. */
  function Blocks(tools: string, native: bool, outline: string, note: Option<string>): seq<string> {
    (if native || tools == "" then [] else [tools]) + (if outline == "" then [] else [outline])
    + (match note case Some(text) => [text] case None => [])
  }

  function WithBlocks(text: string, blocks: seq<string>): string {
    if blocks == [] then text
    else WithBlocks(text, blocks[..|blocks| - 1]) + "\n\n" + blocks[|blocks| - 1]
  }

  /** The blocks after the system text are priced apart, and each separator besides. */
  lemma {:induction false} WithBlocksTokens(text: string, blocks: seq<string>, c: TokenCounter)
    requires Additive(c)
    ensures c.count(WithBlocks(text, blocks)) == c.count(text) + BlockTokens(blocks, c) + |blocks| * c.count("\n\n")
  {
    if blocks != [] {
      var front, last := blocks[..|blocks| - 1], blocks[|blocks| - 1];
      WithBlocksTokens(text, front, c);
      assert c.count(WithBlocks(text, front) + "\n\n") == c.count(WithBlocks(text, front)) + c.count("\n\n");
      assert c.count(WithBlocks(text, blocks)) == c.count(WithBlocks(text, front) + "\n\n") + c.count(last);
      assert |blocks| * c.count("\n\n") == |front| * c.count("\n\n") + c.count("\n\n");
    }
  }

  function BlockTokens(blocks: seq<string>, c: TokenCounter): nat {
    if blocks == [] then 0 else BlockTokens(blocks[..|blocks| - 1], c) + c.count(blocks[|blocks| - 1])
  }

  lemma {:induction false} BlockTokensAppend(a: seq<string>, b: seq<string>, c: TokenCounter)
    ensures BlockTokens(a + b, c) == BlockTokens(a, c) + BlockTokens(b, c)
  {
    if b == [] {
      assert a + b == a;
    } else {
      BlockTokensAppend(a, b[..|b| - 1], c);
      assert (a + b)[..|a + b| - 1] == a + b[..|b| - 1];
    }
  }

  lemma OneBlock(block: string, c: TokenCounter)
    ensures BlockTokens([block], c) == c.count(block)
  {
    assert [block][..0] == [];
  }

  /** The system message is its buckets and its separators: the native transport charges
      the tools without sending them. */
  lemma SystemBlockTokens(system: string, tools: string, native: bool, outline: string, note: Option<string>,
                          c: TokenCounter)
    requires Additive(c)
    ensures c.count(WithBlocks(system, Blocks(tools, native, outline, note))) + (if native then c.count(tools) else 0)
         == c.count(system) + (match note case Some(text) => c.count(text) case None => 0) + c.count(tools) + c.count(outline)
            + |Blocks(tools, native, outline, note)| * c.count("\n\n")
  {
    AdditiveOnEmpty(c);
    var t, o := if native || tools == "" then [] else [tools], if outline == "" then [] else [outline];
    var n := match note case Some(text) => [text] case None => [];
    OneBlock(tools, c);
    OneBlock(outline, c);
    OneBlock(note.GetOr(""), c);
    BlockTokensAppend(t + o, n, c);
    BlockTokensAppend(t, o, c);
    WithBlocksTokens(system, t + o + n, c);
  }
}
