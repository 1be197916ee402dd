/**
 * Within-batch deduplication of uploaded images, as done by the "Upload & Analyze" page
 * of both app variants: every uploaded file is decoded, its decoded pixels are
 * fingerprinted, and only the first file seen for each fingerprint is kept, in
 * first-seen order (`processed_images` maps fingerprint to file, `unique_images`
 * lists the fingerprints).
 *
 * Decoding (PIL's Image.open) and fingerprinting (MD5 of Image.tobytes) are foreign
 * code; both are parameters here. `None` from either one stands for the call raising.
 */
module Dedup {
  import opened Wrappers

  /** A hex digest as produced by hash_image. */
  type Fingerprint = string

  /** An uploaded file: the user-supplied name and the raw bytes. */
  datatype Upload = Upload(name: string, data: seq<bv8>)

  /** A decoded image; only its pixel bytes matter to the fingerprint. */
  datatype Image = Image(pixels: seq<bv8>)

  /** The two values the loop builds: fingerprint -> first file, and fingerprints in first-seen order. */
  datatype Batch = Batch(processed: map<Fingerprint, Upload>, unique: seq<Fingerprint>)

  /** Decode, then fingerprint; `None` when either step raises. */
  function RawKey(f: Upload, decode: seq<bv8> -> Option<Image>,
                  fingerprint: Image -> Option<Fingerprint>): Option<Fingerprint>
  {
    match decode(f.data)
    case None => None
    case Some(img) => fingerprint(img)
  }

  /**
   * The key the error-handling variant admits: a failed decode or hash contributes
   * nothing, and neither does a falsy (empty) digest, because of the `image_hash and`
   * test.
   */
  function KeptKey(f: Upload, decode: seq<bv8> -> Option<Image>,
                   fingerprint: Image -> Option<Fingerprint>): (k: Option<Fingerprint>)
    ensures k.Some? <==> RawKey(f, decode, fingerprint).Some? && RawKey(f, decode, fingerprint).value != ""
    ensures k.Some? ==> k == RawKey(f, decode, fingerprint)
  {
    var raw := RawKey(f, decode, fingerprint);
    if raw.Some? && raw.value != "" then raw else None
  }

  function KeptKeys(files: seq<Upload>, decode: seq<bv8> -> Option<Image>,
                    fingerprint: Image -> Option<Fingerprint>): (keys: seq<Option<Fingerprint>>)
    ensures |keys| == |files|
    ensures forall i :: 0 <= i < |files| ==> keys[i] == KeptKey(files[i], decode, fingerprint)
  {
    seq(|files|, i requires 0 <= i < |files| => KeptKey(files[i], decode, fingerprint))
  }

  /** The keys of a batch in which every decode and hash succeeded. */
  function RawKeys(files: seq<Upload>, decode: seq<bv8> -> Option<Image>,
                   fingerprint: Image -> Option<Fingerprint>): (keys: seq<Option<Fingerprint>>)
    ensures |keys| == |files|
    ensures forall i :: 0 <= i < |files| ==> keys[i] == RawKey(files[i], decode, fingerprint)
  {
    seq(|files|, i requires 0 <= i < |files| => RawKey(files[i], decode, fingerprint))
  }

  /**
   * The position of the first occurrence of `Some(h)` in `keys`, or `|keys|` when
   * there is none.
   */
  function FirstIndex(keys: seq<Option<Fingerprint>>, h: Fingerprint): (r: nat)
    ensures r <= |keys|
    ensures r < |keys| <==> Some(h) in keys
    ensures r < |keys| ==> keys[r] == Some(h)
    ensures forall j :: 0 <= j < r ==> keys[j] != Some(h)
  {
    if keys == [] then 0
    else if keys[0] == Some(h) then 0
    else 1 + FirstIndex(keys[1..], h)
  }

  /** One iteration of the loop body: admit `f` under key `k` unless the key is missing or already seen. */
  function Admit(b: Batch, f: Upload, k: Option<Fingerprint>): Batch
  {
    if k.Some? && k.value !in b.processed then
      Batch(b.processed[k.value := f], b.unique + [k.value])
    else b
  }

  /** The loop over the whole batch, as a left fold of Admit. */
  function Dedup(files: seq<Upload>, keys: seq<Option<Fingerprint>>): Batch
    requires |files| == |keys|
  {
    if files == [] then Batch(map[], [])
    else Admit(Dedup(files[..|files| - 1], keys[..|keys| - 1]), files[|files| - 1], keys[|keys| - 1])
  }

  /** What the loop promises about its result, stated without reference to the loop. */
  ghost predicate FirstSeen(files: seq<Upload>, keys: seq<Option<Fingerprint>>, b: Batch)
    requires |files| == |keys|
  {
    // unique_images and the keys of processed_images hold the same fingerprints
    && (forall h :: h in b.processed <==> h in b.unique)
    // every fingerprint of the batch is kept, and nothing else
    && (forall h :: h in b.processed <==> Some(h) in keys)
    // the file kept for a fingerprint is the first one that had it
    && (forall h :: h in b.processed ==> b.processed[h] == files[FirstIndex(keys, h)])
    // unique_images is in first-seen order, so no fingerprint appears twice
    && (forall i, j :: 0 <= i < j < |b.unique| ==> FirstIndex(keys, b.unique[i]) < FirstIndex(keys, b.unique[j]))
  }

  predicate NoDuplicates(s: seq<Fingerprint>)
  {
    forall i, j :: 0 <= i < j < |s| ==> s[i] != s[j]
  }

  /** Appending one key keeps the first occurrence of every key already present. */
  lemma FirstIndexExtend(keys: seq<Option<Fingerprint>>, k: Option<Fingerprint>, h: Fingerprint)
    ensures Some(h) in keys ==> FirstIndex(keys + [k], h) == FirstIndex(keys, h)
    ensures Some(h) !in keys && k == Some(h) ==> FirstIndex(keys + [k], h) == |keys|
  {
    if Some(h) in keys {
      assert (keys + [k])[FirstIndex(keys, h)] == Some(h);
    } else if k == Some(h) {
      assert (keys + [k])[|keys|] == Some(h);
    }
  }

  /** The batch splits into its last file and the rest, as the fold does. */
  lemma DedupLast(files: seq<Upload>, keys: seq<Option<Fingerprint>>)
    requires |files| == |keys| && files != []
    ensures files == files[..|files| - 1] + [files[|files| - 1]]
    ensures keys == keys[..|keys| - 1] + [keys[|keys| - 1]]
    ensures forall h :: Some(h) in keys <==> Some(h) in keys[..|keys| - 1] || keys[|keys| - 1] == Some(h)
  {
    assert keys == keys[..|keys| - 1] + [keys[|keys| - 1]];
  }

  /** Kept fingerprints: exactly those of the batch, in both the map and the list. */
  lemma {:induction false} DedupKeepsEveryFingerprint(files: seq<Upload>, keys: seq<Option<Fingerprint>>)
    requires |files| == |keys|
    ensures forall h :: h in Dedup(files, keys).processed <==> h in Dedup(files, keys).unique
    ensures forall h :: h in Dedup(files, keys).processed <==> Some(h) in keys
  {
    if files != [] {
      DedupLast(files, keys);
      DedupKeepsEveryFingerprint(files[..|files| - 1], keys[..|keys| - 1]);
    }
  }

  /** The file kept for each fingerprint is the first file of the batch that had it. */
  lemma {:induction false} DedupKeepsFirstFile(files: seq<Upload>, keys: seq<Option<Fingerprint>>)
    requires |files| == |keys|
    ensures forall h :: h in Dedup(files, keys).processed ==>
      FirstIndex(keys, h) < |files| && Dedup(files, keys).processed[h] == files[FirstIndex(keys, h)]
  {
    if files != [] {
      var n := |files|;
      var fs, ks := files[..n - 1], keys[..n - 1];
      DedupLast(files, keys);
      DedupKeepsFirstFile(fs, ks);
      DedupKeepsEveryFingerprint(fs, ks);
      var b := Dedup(files, keys);
      DedupKeepsEveryFingerprint(files, keys);
      forall h | h in b.processed ensures FirstIndex(keys, h) < n && b.processed[h] == files[FirstIndex(keys, h)] {
        FirstIndexExtend(ks, keys[n - 1], h);
        if Some(h) in ks {
          assert files[FirstIndex(ks, h)] == fs[FirstIndex(ks, h)];
        }
      }
    }
  }

  /** The list of kept fingerprints is in first-seen order. */
  lemma {:induction false} DedupKeepsFirstSeenOrder(files: seq<Upload>, keys: seq<Option<Fingerprint>>)
    requires |files| == |keys|
    ensures forall i, j :: 0 <= i < j < |Dedup(files, keys).unique| ==>
      FirstIndex(keys, Dedup(files, keys).unique[i]) < FirstIndex(keys, Dedup(files, keys).unique[j])
  {
    if files != [] {
      var n := |files|;
      var fs, ks := files[..n - 1], keys[..n - 1];
      DedupLast(files, keys);
      DedupKeepsFirstSeenOrder(fs, ks);
      DedupKeepsEveryFingerprint(fs, ks);
      var u', u := Dedup(fs, ks).unique, Dedup(files, keys).unique;
      assert Dedup(files, keys) == Admit(Dedup(fs, ks), files[n - 1], keys[n - 1]);
      forall i | 0 <= i < |u'| ensures FirstIndex(keys, u'[i]) == FirstIndex(ks, u'[i]) < n - 1 {
        assert u'[i] in u';
        FirstIndexExtend(ks, keys[n - 1], u'[i]);
      }
      if |u| > |u'| {
        var k := keys[n - 1];
        assert k.Some? && Some(k.value) !in ks && u == u' + [k.value];
        FirstIndexExtend(ks, k, k.value);
      }
      forall i, j | 0 <= i < j < |u| ensures FirstIndex(keys, u[i]) < FirstIndex(keys, u[j]) {
        assert u[i] == u'[i];
        if j < |u'| {
          assert u[j] == u'[j];
          assert FirstIndex(ks, u'[i]) < FirstIndex(ks, u'[j]);
        } else {
          var k := keys[n - 1];
          assert u[j] == k.value && Some(k.value) !in ks;
          FirstIndexExtend(ks, k, k.value);
        }
      }
    }
  }

  /** The fold satisfies the first-seen characterisation for every batch. */
  lemma {:induction false} DedupIsFirstSeen(files: seq<Upload>, keys: seq<Option<Fingerprint>>)
    requires |files| == |keys|
    ensures FirstSeen(files, keys, Dedup(files, keys))
    ensures NoDuplicates(Dedup(files, keys).unique)
  {
    var b := Dedup(files, keys);
    DedupKeepsEveryFingerprint(files, keys);
    DedupKeepsFirstFile(files, keys);
    DedupKeepsFirstSeenOrder(files, keys);
    OrderedHasNoDuplicates(keys, Dedup(files, keys).unique);
  }

  lemma OrderedHasNoDuplicates(keys: seq<Option<Fingerprint>>, u: seq<Fingerprint>)
    requires forall i, j :: 0 <= i < j < |u| ==> FirstIndex(keys, u[i]) < FirstIndex(keys, u[j])
    ensures NoDuplicates(u)
  {
  }

  /** A file whose key is missing (failed decode, failed hash, empty digest) contributes nothing. */
  lemma {:induction false} SkippedFileContributesNothing(files: seq<Upload>, keys: seq<Option<Fingerprint>>, j: nat)
    requires |files| == |keys| && j < |keys| && keys[j].None?
    ensures Dedup(files, keys) == Dedup(files[..j] + files[j + 1..], keys[..j] + keys[j + 1..])
  {
    var n := |files|;
    var fs, ks := files[..n - 1], keys[..n - 1];
    if j == n - 1 {
      assert files[..j] + files[j + 1..] == fs;
      assert keys[..j] + keys[j + 1..] == ks;
    } else {
      SkippedFileContributesNothing(fs, ks, j);
      var files', keys' := files[..j] + files[j + 1..], keys[..j] + keys[j + 1..];
      assert files'[..|files'| - 1] == fs[..j] + fs[j + 1..];
      assert keys'[..|keys'| - 1] == ks[..j] + ks[j + 1..];
      assert files'[|files'| - 1] == files[n - 1];
      assert keys'[|keys'| - 1] == keys[n - 1];
    }
  }

  /**
   * The loop of the error-handling variant: a file whose decode or hash raises is
   * reported and skipped, and the loop goes on with the rest of the batch.
   */
  method DedupUploads(files: seq<Upload>, decode: seq<bv8> -> Option<Image>,
                      fingerprint: Image -> Option<Fingerprint>)
    returns (processed: map<Fingerprint, Upload>, unique: seq<Fingerprint>)
    ensures Batch(processed, unique) == Dedup(files, KeptKeys(files, decode, fingerprint))
    ensures FirstSeen(files, KeptKeys(files, decode, fingerprint), Batch(processed, unique))
    ensures NoDuplicates(unique)
  {
    ghost var keys := KeptKeys(files, decode, fingerprint);
    processed, unique := map[], [];
    var i := 0;
    while i < |files|
      invariant 0 <= i <= |files|
      invariant Batch(processed, unique) == Dedup(files[..i], keys[..i])
    {
      var f := files[i];
      assert files[..i + 1][..i] == files[..i];
      assert keys[..i + 1][..i] == keys[..i];
      var image := decode(f.data);
      if image.Some? {
        var imageHash := fingerprint(image.value);
        if imageHash.Some? && imageHash.value != "" && imageHash.value !in processed {
          processed := processed[imageHash.value := f];
          unique := unique + [imageHash.value];
        }
      }
      i := i + 1;
    }
    assert files[..i] == files;
    assert keys[..i] == keys;
    DedupIsFirstSeen(files, keys);
  }

  /** Some file of the batch fails to decode or to hash. */
  ghost predicate SomeFileRaises(files: seq<Upload>, decode: seq<bv8> -> Option<Image>,
                                 fingerprint: Image -> Option<Fingerprint>)
  {
    exists j :: 0 <= j < |files| && RawKey(files[j], decode, fingerprint).None?
  }

  /**
   * The loop of the earlier variant, which has no error handling: the first file
   * that fails to decode or to hash aborts the whole run (`None`), and every digest,
   * even an empty one, is admitted.
   */
  method DedupUploadsStrict(files: seq<Upload>, decode: seq<bv8> -> Option<Image>,
                            fingerprint: Image -> Option<Fingerprint>)
    returns (r: Option<Batch>)
    ensures r.None? <==> SomeFileRaises(files, decode, fingerprint)
    ensures r.Some? ==> r.value == Dedup(files, RawKeys(files, decode, fingerprint))
    ensures r.Some? ==> FirstSeen(files, RawKeys(files, decode, fingerprint), r.value)
    ensures r.Some? ==> NoDuplicates(r.value.unique)
  {
    ghost var keys := RawKeys(files, decode, fingerprint);
    var processed: map<Fingerprint, Upload> := map[];
    var unique: seq<Fingerprint> := [];
    var i := 0;
    while i < |files|
      invariant 0 <= i <= |files|
      invariant forall j :: 0 <= j < i ==> keys[j].Some?
      invariant Batch(processed, unique) == Dedup(files[..i], keys[..i])
    {
      var f := files[i];
      assert files[..i + 1][..i] == files[..i];
      assert keys[..i + 1][..i] == keys[..i];
      var image := decode(f.data);
      if image.None? {
        return None;
      }
      var imageHash := fingerprint(image.value);
      if imageHash.None? {
        return None;
      }
      if imageHash.value !in processed {
        processed := processed[imageHash.value := f];
        unique := unique + [imageHash.value];
      }
      i := i + 1;
    }
    assert files[..i] == files;
    assert keys[..i] == keys;
    DedupIsFirstSeen(files, keys);
    r := Some(Batch(processed, unique));
  }

  /**
   * When every file decodes and hashes to a non-empty digest, the two variants keep
   * exactly the same files in the same order.
   */
  lemma VariantsAgreeOnCleanBatch(files: seq<Upload>, decode: seq<bv8> -> Option<Image>,
                                  fingerprint: Image -> Option<Fingerprint>)
    requires forall j :: 0 <= j < |files| ==>
      RawKey(files[j], decode, fingerprint).Some? && RawKey(files[j], decode, fingerprint).value != ""
    ensures !SomeFileRaises(files, decode, fingerprint)
    ensures Dedup(files, KeptKeys(files, decode, fingerprint)) == Dedup(files, RawKeys(files, decode, fingerprint))
  {
    assert KeptKeys(files, decode, fingerprint) == RawKeys(files, decode, fingerprint);
  }

  /** Two byte-identical uploads named a.png and b.png: only a.png is kept. */
  lemma IdenticalUploadsKeepFirst(decode: seq<bv8> -> Option<Image>,
                                  fingerprint: Image -> Option<Fingerprint>, bytes: seq<bv8>)
    requires decode(bytes).Some?
    requires fingerprint(decode(bytes).value).Some? && fingerprint(decode(bytes).value).value != ""
    ensures var files := [Upload("a.png", bytes), Upload("b.png", bytes)];
            var h := fingerprint(decode(bytes).value).value;
            Dedup(files, KeptKeys(files, decode, fingerprint)) == Batch(map[h := Upload("a.png", bytes)], [h])
  {
    var files := [Upload("a.png", bytes), Upload("b.png", bytes)];
    var keys := KeptKeys(files, decode, fingerprint);
    var h := fingerprint(decode(bytes).value).value;
    assert keys == [Some(h), Some(h)];
    assert files[..1] == [files[0]] && keys[..1] == [keys[0]];
    assert files[..1][..0] == [] && keys[..1][..0] == [];
    assert Dedup(files[..1], keys[..1]) == Batch(map[h := files[0]], [h]);
  }
}
