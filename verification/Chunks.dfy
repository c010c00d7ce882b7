/** Citable pieces of source files, as indexing stores them and retrieval returns them. */
module Chunks {
  import opened Orders
  import opened Wrappers

  datatype Kind = LineWindow | Structural | StructuralFragment

  /** Line numbers are 1-based and inclusive; the index counts the chunks of one file from zero. */
  datatype CodeChunk = CodeChunk(
    path: string,
    language: Option<string>,
    startLine: nat,
    endLine: nat,
    content: string,
    index: nat,
    strategy: string,
    kind: Kind,
    symbol: Option<string>,
    qualified: Option<string>)
  {
    predicate Valid() {
      1 <= startLine <= endLine
    }
  }

  /** How every part of the system tells chunks apart, whatever row or object holds them. */
  datatype Identity = Identity(path: string, index: nat, startLine: nat, endLine: nat)

  function IdentityOf(c: CodeChunk): Identity {
    Identity(c.path, c.index, c.startLine, c.endLine)
  }

  /** Identities in Python's tuple order. */
  predicate IdentityLe(a: Identity, b: Identity) {
    if a.path != b.path then StringLe(a.path, b.path)
    else if a.index != b.index then a.index < b.index
    else if a.startLine != b.startLine then a.startLine < b.startLine
    else a.endLine <= b.endLine
  }

  lemma IdentityLeTotal(a: Identity, b: Identity)
    ensures IdentityLe(a, b) || IdentityLe(b, a)
  {
    StringLeTotal(a.path, b.path);
  }

  lemma IdentityLeAntisymmetric(a: Identity, b: Identity)
    requires IdentityLe(a, b) && IdentityLe(b, a)
    ensures a == b
  {
    if a.path != b.path {
      StringLeAntisymmetric(a.path, b.path);
    }
  }

  lemma IdentityLeTransitive(a: Identity, b: Identity, c: Identity)
    requires IdentityLe(a, b) && IdentityLe(b, c)
    ensures IdentityLe(a, c)
  {
    if a.path != b.path && b.path != c.path {
      StringLeTransitive(a.path, b.path, c.path);
      if a.path == c.path {
        StringLeAntisymmetric(a.path, b.path);
      }
    }
  }
}
