/**
 * `generateFirestoreId` and the storage paths of `uploadMusic` in
 * src/lib/firebase/storage.ts. The random bytes are a parameter; the
 * uploads themselves are not part of this model.
 */
module Storage {
  import opened Base
  import opened JsStrings

  /** The 62 characters of `chars`: upper case, lower case, then digits. */
  const Alphabet: string :=
    "ABCDEFGHIJKLMNOPQRSTUVWXYZ" + "abcdefghijklmnopqrstuvwxyz" + "0123456789"

  const IdLength: nat := 20

  /** The code point of `Alphabet[i]`: upper case, then lower case, then digits. */
  function AlphabetCode(i: nat): int
    requires i < 62
  {
    if i < 26 then 'A' as int + i
    else if i < 52 then 'a' as int + (i - 26)
    else '0' as int + (i - 52)
  }

  lemma AlphabetLayout()
    ensures |Alphabet| == 62
    ensures forall i :: 0 <= i < 62 ==> Alphabet[i] as int == AlphabetCode(i)
  {
  }

  /** No character occurs twice in the alphabet, and "/" is not one of them. */
  lemma AlphabetDistinct()
    ensures forall i, j :: 0 <= i < j < |Alphabet| ==> Alphabet[i] != Alphabet[j]
    ensures '/' !in Alphabet
  {
    AlphabetLayout();
  }

  /** `id` is the identifier drawn from `bytes`: character i is `Alphabet[bytes[i] % 62]`. */
  ghost predicate IsIdFor(id: string, bytes: seq<Byte>) {
    && |bytes| == IdLength
    && |id| == IdLength
    && forall i :: 0 <= i < IdLength ==> id[i] == Alphabet[bytes[i] % |Alphabet|]
  }

  /** `generateFirestoreId()` with the output of `crypto.getRandomValues` passed in. */
  method GenerateFirestoreId(randomValues: seq<Byte>) returns (id: string)
    requires |randomValues| == IdLength
    ensures IsIdFor(id, randomValues)
    ensures forall i :: 0 <= i < |id| ==> id[i] in Alphabet
  {
    id := "";
    for i := 0 to IdLength
      invariant |id| == i
      invariant forall k :: 0 <= k < i ==> id[k] == Alphabet[randomValues[k] % |Alphabet|]
    {
      id := id + [Alphabet[randomValues[i] % |Alphabet|]];
    }
  }

  /** Two draws give the same identifier exactly when their bytes agree modulo 62. */
  lemma IdDeterminedByResidues(id1: string, b1: seq<Byte>, id2: string, b2: seq<Byte>)
    requires IsIdFor(id1, b1) && IsIdFor(id2, b2)
    ensures id1 == id2 <==> forall i :: 0 <= i < IdLength ==> b1[i] % 62 == b2[i] % 62
  {
    AlphabetDistinct();
    if id1 == id2 {
      forall i | 0 <= i < IdLength ensures b1[i] % 62 == b2[i] % 62 {
        assert Alphabet[b1[i] % 62] == Alphabet[b2[i] % 62];
      }
    }
  }

  /** `getUserId() || "null"`: an empty uid is replaced by the text "null". */
  function UidSegment(uid: string): (s: string)
    ensures s != ""
    ensures uid != "" ==> s == uid
  {
    if uid == "" then "null" else uid
  }

  /**
   * The path templates of `uploadMusic`: `public/<uid or "null">/<folder>/<id>/<name>`,
   * with `folder` "music" for the track and "image" for the cover.
   */
  function StoragePath(folder: string, uid: string, id: string, name: string): (p: string)
    ensures p == Join(["public", UidSegment(uid), folder, id, name], '/')
    ensures '/' !in uid && '/' !in folder && '/' !in id && '/' !in name ==>
            Split(p, '/') == ["public", UidSegment(uid), folder, id, name]
  {
    var p := "public/" + UidSegment(uid) + "/" + folder + "/" + id + "/" + name;
    JoinFive("public", UidSegment(uid), folder, id, name);
    if '/' !in uid && '/' !in folder && '/' !in id && '/' !in name then
      assert '/' !in UidSegment(uid);
      SplitJoinAll(["public", UidSegment(uid), folder, id, name], '/');
      p
    else p
  }

  /**
   * The `filePath` of `uploadMusic`: split on "/" it gives back "public", the uid segment,
   * "music", the id and the file name.
   */
  function FilePath(uid: string, id: string, fileName: string): (p: string)
    ensures '/' !in uid && '/' !in id && '/' !in fileName ==>
            Split(p, '/') == ["public", UidSegment(uid), "music", id, fileName]
  {
    StoragePath("music", uid, id, fileName)
  }

  /** The `fileCoverPath` of `uploadMusic`: the same parts, with "image" for "music". */
  function FileCoverPath(uid: string, id: string, coverName: string): (p: string)
    ensures '/' !in uid && '/' !in id && '/' !in coverName ==>
            Split(p, '/') == ["public", UidSegment(uid), "image", id, coverName]
  {
    StoragePath("image", uid, id, coverName)
  }

  lemma JoinFive(a: string, b: string, c: string, d: string, e: string)
    ensures Join([a, b, c, d, e], '/') == a + "/" + b + "/" + c + "/" + d + "/" + e
  {
    assert [a, b, c, d, e][1..] == [b, c, d, e];
    assert [b, c, d, e][1..] == [c, d, e];
    assert [c, d, e][1..] == [d, e];
    assert [d, e][1..] == [e];
    assert Join([e], '/') == e;
    var j4 := Join([d, e], '/');
    assert j4 == d + ['/'] + e;
    assert "/" == ['/'];
    var j3 := Join([c, d, e], '/');
    assert j3 == c + "/" + j4;
    var j2 := Join([b, c, d, e], '/');
    assert j2 == b + "/" + j3;
    assert Join([a, b, c, d, e], '/') == a + "/" + j2;
  }

  /** A generated id holds no "/", so the paths of an upload always parse back. */
  lemma GeneratedIdHasNoSlash(id: string, bytes: seq<Byte>)
    requires IsIdFor(id, bytes)
    ensures '/' !in id
  {
    AlphabetDistinct();
  }
}
