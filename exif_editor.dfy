/** The EXIF metadata editor of data/generated_scripts/piexif/0.py.

    An image file carries an optional EXIF block and a pixel payload. A block
    maps each IFD ("0th", "Exif", "GPS", "Interop", "1st") to a map from tag
    number to value. The store holds the decoded block directly, so the piexif
    byte codec is not part of the model; PIL's decode and re-encode of the
    pixels is a parameter `reencode` of each writing operation. */
module ExifEditor {
  import opened Wrappers

  type Path = string
  type Ifd = string
  type Tag = int

  /** A field value, as piexif decodes it; a field with several values
      (BitsPerSample, a GPS coordinate) is a tuple of them. */
  datatype Value =
    | Integer(n: int)
    | Ascii(s: string)
    | Rational(numerator: int, denominator: int)
    | Undefined(bytes: seq<bv8>)
    | Many(values: seq<Value>)

  type Fields = map<Tag, Value>
  type Block = map<Ifd, Fields>
  type Payload = seq<bv8>

  /** What `load_image` yields: `info['exif']` may be missing. */
  datatype Image = Image(exif: Option<Block>, payload: Payload)

  datatype Error =
    | FileNotFound(path: Path)   // raised by check_file
    | MissingExif(path: Path)    // KeyError on image.info['exif']

  /** The tag IFDs that `piexif.load` always returns, empty or not. */
  const TagIfds: set<Ifd> := {"0th", "Exif", "GPS", "Interop", "1st"}

  /** The block read back after `piexif.dump({})` was written: every tag
      IFD present and no field in any of them. */
  function EmptyBlock(): (b: Block)
    ensures b.Keys == TagIfds
    ensures forall ifd :: ifd in b ==> b[ifd] == map[]
  {
    map ifd | ifd in TagIfds :: map[]
  }

  /** Every (IFD, tag) pair that carries a value in the block. */
  ghost function Entries(b: Block): set<(Ifd, Tag)>
  {
    set ifd, tag | ifd in b && tag in b[ifd] :: (ifd, tag)
  }

  /** The block after `key` has been deleted from every IFD. */
  function RemoveTag(b: Block, key: Tag): (r: Block)
    ensures r.Keys == b.Keys
    ensures forall ifd :: ifd in r ==> key !in r[ifd]
    ensures forall ifd, tag :: ifd in b && tag in b[ifd] && tag != key ==>
              tag in r[ifd] && r[ifd][tag] == b[ifd][tag]
    ensures forall ifd, tag :: ifd in r && tag in r[ifd] ==> tag in b[ifd]
  {
    map ifd | ifd in b :: b[ifd] - {key}
  }

  /** Removal deletes exactly the entries under `key`, in every IFD. */
  lemma RemoveTagEntries(b: Block, key: Tag)
    ensures Entries(RemoveTag(b, key)) == set e | e in Entries(b) && e.1 != key
  {
  }

  /** Removal leaves the block as it was exactly when no IFD holds `key`:
      an absent tag is a no-op, not an error. */
  lemma RemoveTagNoOpIff(b: Block, key: Tag)
    ensures RemoveTag(b, key) == b <==> forall ifd :: ifd in b ==> key !in b[ifd]
  {
    var r := RemoveTag(b, key);
    if forall ifd :: ifd in b ==> key !in b[ifd] {
      forall ifd | ifd in b
        ensures r[ifd] == b[ifd]
      {
        assert r[ifd].Keys == b[ifd].Keys;
      }
    }
  }

  /** Removing the same tag twice gives the block that removing it once gives. */
  lemma RemoveTagIdempotent(b: Block, key: Tag)
    ensures RemoveTag(RemoveTag(b, key), key) == RemoveTag(b, key)
  {
    RemoveTagNoOpIff(RemoveTag(b, key), key);
  }

  /** The loop of remove_specific_exif_data: for every IFD, delete `key` if the
      IFD holds it. The IFDs are visited in an unspecified order. */
  method RemoveTagLoop(block: Block, key: Tag) returns (exif: Block)
    ensures exif == RemoveTag(block, key)
  {
    exif := block;
    var todo := block.Keys;
    while todo != {}
      invariant todo <= block.Keys
      invariant exif.Keys == block.Keys
      invariant forall ifd :: ifd in todo ==> exif[ifd] == block[ifd]
      invariant forall ifd :: ifd in block && ifd !in todo ==> exif[ifd] == block[ifd] - {key}
      decreases todo
    {
      var ifd :| ifd in todo;
      if key in exif[ifd] {
        exif := exif[ifd := exif[ifd] - {key}];
      }
      todo := todo - {ifd};
    }
  }

  /* The loop of remove_specific_exif_data as written. Besides the tag IFDs,
     `piexif.load` returns a "thumbnail" entry holding the thumbnail's JPEG
     bytes or None, and the loop visits it like the others. */

  /** One entry of the dictionary `piexif.load` returns. */
  datatype Entry = Tags(fields: Fields) | Thumbnail(jpeg: Option<seq<bv8>>)

  type Loaded = map<Ifd, Entry>

  /** Whether `exif_key in entry`, and then `del entry[exif_key]`, raises:
      `in` on None is a TypeError, `in` on bytes with an int outside 0..255 is
      a ValueError, and deleting from bytes is a TypeError. */
  predicate Raises(e: Entry, key: Tag)
  {
    match e
    case Tags(_) => false
    case Thumbnail(None) => true
    case Thumbnail(Some(jpeg)) => !(0 <= key < 256) || key as bv8 in jpeg
  }

  /** The loop at lines 62-64 as written: None when some entry raises (the
      edits made so far are then lost, since nothing is saved), otherwise
      every tag IFD without `key` and the thumbnail untouched. */
  function RemoveTagAsWritten(loaded: Loaded, key: Tag): (r: Option<Loaded>)
    ensures r.None? <==> exists ifd :: ifd in loaded && Raises(loaded[ifd], key)
    ensures r.Some? ==> r.value.Keys == loaded.Keys
    ensures r.Some? ==> forall ifd :: ifd in loaded && loaded[ifd].Tags? ==>
              r.value[ifd] == Tags(loaded[ifd].fields - {key})
    ensures r.Some? ==> forall ifd :: ifd in loaded && loaded[ifd].Thumbnail? ==>
              r.value[ifd] == loaded[ifd]
  {
    if exists ifd :: ifd in loaded && Raises(loaded[ifd], key) then None
    else Some(map ifd | ifd in loaded ::
                if loaded[ifd].Tags? then Tags(loaded[ifd].fields - {key}) else loaded[ifd])
  }

  /** What `piexif.load` returns for an image with EXIF: the five tag IFDs
      and the thumbnail. */
  function PiexifLoad(b: Block, thumbnail: Option<seq<bv8>>): (loaded: Loaded)
    requires b.Keys == TagIfds
    ensures loaded.Keys == TagIfds + {"thumbnail"}
  {
    AsEntries(b)["thumbnail" := Thumbnail(thumbnail)]
  }

  /** Without a thumbnail the loop as written raises for every tag, so
      remove_specific_exif_data never saves. */
  lemma AsWrittenFailsWithoutThumbnail(b: Block, key: Tag)
    requires b.Keys == TagIfds
    ensures RemoveTagAsWritten(PiexifLoad(b, None), key).None?
  {
  }

  /** With a thumbnail it raises for every tag number above 255, which
      includes most EXIF tags (271, Make, among them). */
  lemma AsWrittenFailsOnWideTag(b: Block, jpeg: seq<bv8>, key: Tag)
    requires b.Keys == TagIfds
    requires key >= 256
    ensures RemoveTagAsWritten(PiexifLoad(b, Some(jpeg)), key).None?
  {
  }

  /** A block seen as the entries of a loaded dictionary. */
  function AsEntries(b: Block): (loaded: Loaded)
    ensures loaded.Keys == b.Keys
    ensures forall ifd :: ifd in b ==> loaded[ifd] == Tags(b[ifd])
  {
    map ifd | ifd in b :: Tags(b[ifd])
  }

  /** Over tag IFDs alone the loop as written never raises and agrees with
      `RemoveTag`, the behaviour the rest of this model uses. */
  lemma AsWrittenAgreesOnTagIfds(b: Block, key: Tag)
    ensures RemoveTagAsWritten(AsEntries(b), key) == Some(AsEntries(RemoveTag(b, key)))
  {
    var loaded := AsEntries(b);
    assert !exists ifd :: ifd in loaded && Raises(loaded[ifd], key);
    var r := RemoveTagAsWritten(loaded, key).value;
    var expected := AsEntries(RemoveTag(b, key));
    forall ifd | ifd in r
      ensures r[ifd] == expected[ifd]
    {
      assert loaded[ifd].Tags?;
    }
    assert r == expected;
  }

  /** The file system as the scripts see it: each existing file path with
      the image stored there. */
  class FileStore {
    var files: map<Path, Image>

    constructor (files: map<Path, Image>)
      ensures this.files == files
    {
      this.files := files;
    }

    /** check_file: fails unless the path names an existing file. */
    method CheckFile(path: Path) returns (r: Outcome<Error>)
      ensures r.Pass? <==> path in files
      ensures r.Fail? ==> r.error == FileNotFound(path)
    {
      if path !in files {
        return Fail(FileNotFound(path));
      }
      return Pass;
    }

    /** clone_exif_data: the target gets the source's block. Both paths are
        checked, source first, before anything is read or written. */
    method CloneExifData(source: Path, target: Path, reencode: Payload -> Payload)
      returns (r: Outcome<Error>)
      modifies this
      ensures r == (if source !in old(files) then Fail(FileNotFound(source))
                    else if target !in old(files) then Fail(FileNotFound(target))
                    else if old(files)[source].exif.None? then Fail(MissingExif(source))
                    else Pass)
      ensures r.Fail? ==> files == old(files)
      ensures r.Pass? ==>
                files == old(files)[target := Image(old(files)[source].exif,
                                                    reencode(old(files)[target].payload))]
      ensures r.Pass? && source != target ==> files[source] == old(files)[source]
    {
      r := CheckFile(source);
      if r.Fail? {
        return;
      }
      r := CheckFile(target);
      if r.Fail? {
        return;
      }
      var sourceImage := files[source];
      if sourceImage.exif.None? {
        return Fail(MissingExif(source));
      }
      var sourceExif := sourceImage.exif.value;
      var targetImage := files[target];
      files := files[target := Image(Some(sourceExif), reencode(targetImage.payload))];
    }

    /** remove_exif_data: the block becomes the empty block, whatever it was,
        and an image without EXIF is accepted. */
    method RemoveExifData(path: Path, reencode: Payload -> Payload) returns (r: Outcome<Error>)
      modifies this
      ensures r.Pass? <==> path in old(files)
      ensures r.Fail? ==> r.error == FileNotFound(path) && files == old(files)
      ensures r.Pass? ==>
                files == old(files)[path := Image(Some(EmptyBlock()),
                                                  reencode(old(files)[path].payload))]
    {
      r := CheckFile(path);
      if r.Fail? {
        return;
      }
      var image := files[path];
      files := files[path := Image(Some(EmptyBlock()), reencode(image.payload))];
    }

    /** remove_specific_exif_data: `key` is deleted from every IFD of the
        stored block; nothing is written when the path is missing or the
        image has no EXIF entry. */
    method RemoveSpecificExifData(path: Path, key: Tag, reencode: Payload -> Payload)
      returns (r: Outcome<Error>)
      modifies this
      ensures r == (if path !in old(files) then Fail(FileNotFound(path))
                    else if old(files)[path].exif.None? then Fail(MissingExif(path))
                    else Pass)
      ensures r.Fail? ==> files == old(files)
      ensures r.Pass? ==>
                files == old(files)[path := Image(Some(RemoveTag(old(files)[path].exif.value, key)),
                                                  reencode(old(files)[path].payload))]
    {
      r := CheckFile(path);
      if r.Fail? {
        return;
      }
      var image := files[path];
      if image.exif.None? {
        return Fail(MissingExif(path));
      }
      var exif := RemoveTagLoop(image.exif.value, key);
      files := files[path := Image(Some(exif), reencode(image.payload))];
    }
  }
}
