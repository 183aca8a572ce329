/**
 Ideal digests: a hash is the thing it hashes, so equal hashes have equal
 contents, no hash is the genesis value, and none contains itself.  `Stray` is
 any other 64-character text a table may hold, `Malformed` any text of another length.
 */
module HashChain {
  datatype Digest<T> = Genesis | Sealed(prev: Digest<T>, content: T) | Stray(id: nat) | Malformed(len: nat)

  /** The head hash of a chain that starts at genesis. */
  function HeadOf<T>(contents: seq<T>): Digest<T> {
    if contents == [] then Genesis
    else Sealed(HeadOf(contents[..|contents| - 1]), contents[|contents| - 1])
  }

  /** A head determines everything beneath it: how many entries, and each of them. */
  lemma {:induction false} HeadDeterminesContents<T>(a: seq<T>, b: seq<T>)
    requires HeadOf(a) == HeadOf(b)
    ensures a == b
  {
    if a != [] && b != [] {
      var i, j := |a| - 1, |b| - 1;
      HeadDeterminesContents(a[..i], b[..j]);
      assert a == a[..i] + [a[i]];
      assert b == b[..j] + [b[j]];
    }
  }
}
