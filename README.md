# EXIF editing and warehouse state, modelled in Dafny

This project models the two pieces of logic that the demo scripts of the
repository own themselves, rather than delegate to a library:

- **The EXIF metadata editor** (`data/generated_scripts/piexif/0.py`, module
  `ExifEditor`). An EXIF block is a map from IFD name to a map from tag number
  to value. A `FileStore` class holds, for every existing file path, the image
  stored there: an optional decoded EXIF block (PIL's `info['exif']` may be
  missing) and a pixel payload. `check_file`, `clone_exif_data`,
  `remove_exif_data` and `remove_specific_exif_data` are methods of that class
  that return `Pass` or `Fail` with the exception the script raises
  (`FileNotFound`, or `MissingExif` for the `KeyError` on `info['exif']`). The
  loop that deletes a tag from every IFD is the method `RemoveTagLoop`, proved
  equal to the function `RemoveTag`, about which the frame, no-op and
  idempotence properties are proved. The same loop as written, over everything
  `piexif.load` returns, raises on the thumbnail entry for almost every image;
  `RemoveTagAsWritten`
  records this and "## Findings" explains it.
- **The warehouse state table** (`data/generated_scripts/packaging/9.py`,
  module `Warehouses`). `Warehouse` is a class whose one field is a map over six
  fixed categories, all 0 at creation; `UpdateState` overwrites an existing key
  and fails with `InvalidKey` (the `ValueError`) otherwise, leaving the table as
  it was. The pure `Update` function states the same on table values and the
  lemmas about it show that no sequence of updates changes the key set and that
  the last write to a key wins.
- **The version ordering used by `compare_versions`** (module `Versions`): a
  release segment compared component by component with missing components read
  as 0, then the a/b/rc pre-release segment, where a version without one sorts
  last (PEP 440, "Pre-releases" section).

`wrappers.dfy` holds the `Option`, `Outcome` and `Result` datatypes.

## Model

| member | source | states |
|---|---|---|
| ExifEditor.EmptyBlock | data/generated_scripts/piexif/0.py:47 | the block read back after `piexif.dump({})` is written holds no field: each of the five tag IFDs is present and empty |
| ExifEditor.RemoveTag | data/generated_scripts/piexif/0.py:62-64 | after removal no IFD holds the tag; the set of IFDs is unchanged; every other (IFD, tag) entry keeps its value; no entry is added |
| ExifEditor.RemoveTagEntries | data/generated_scripts/piexif/0.py:62-64 | the (IFD, tag) entries after removal are exactly the original entries whose tag differs from the removed one |
| ExifEditor.RemoveTagNoOpIff | data/generated_scripts/piexif/0.py:63 | removal returns the original block if and only if no IFD holds the tag, so an absent tag is a no-op and not an error |
| ExifEditor.RemoveTagIdempotent | data/generated_scripts/piexif/0.py:62-64 | removing a tag twice gives the same block as removing it once |
| ExifEditor.RemoveTagLoop | data/generated_scripts/piexif/0.py:62-64 | the loop that visits every IFD and deletes the tag where present yields exactly `RemoveTag` of the loaded block, whatever order the IFDs are visited in |
| ExifEditor.FileStore.CheckFile | data/generated_scripts/piexif/0.py:15-17 | passes exactly when the path names an existing file, otherwise fails with `FileNotFound` for that path |
| ExifEditor.FileStore.CloneExifData | data/generated_scripts/piexif/0.py:21-36 | fails with `FileNotFound` for the source, then for the target, then with `MissingExif` when the source has no EXIF entry, writing nothing in each case; otherwise the target's block becomes the source's block whatever it was before, the target's payload is its re-encoding, and no other file (the source included) changes |
| ExifEditor.FileStore.RemoveExifData | data/generated_scripts/piexif/0.py:40-50 | fails with `FileNotFound` and writes nothing when the path is missing; otherwise the stored block becomes the empty block whatever it was, an image without EXIF included, so a second call leaves the same block; no other file changes |
| ExifEditor.FileStore.RemoveSpecificExifData | data/generated_scripts/piexif/0.py:54-70 | fails with `FileNotFound`, then with `MissingExif`, writing nothing; otherwise the stored block becomes `RemoveTag` of the old block and no other file changes. This is the evidently intended behaviour over the tag IFDs; as written the loop raises on the thumbnail entry for almost every image (see Findings) |
| ExifEditor.RemoveTagAsWritten | data/generated_scripts/piexif/0.py:59-64 | the loop as written over everything `piexif.load` returns raises exactly when some entry raises on `in` or `del` (the thumbnail: None, bytes with a tag outside 0..255, or bytes containing the tag); otherwise every tag IFD loses the tag and the thumbnail is kept |
| ExifEditor.AsWrittenFailsWithoutThumbnail | data/generated_scripts/piexif/0.py:59-64 | for an image without a thumbnail, the loop as written raises for every tag, so nothing is saved |
| ExifEditor.AsWrittenFailsOnWideTag | data/generated_scripts/piexif/0.py:59-64 | for an image with a thumbnail, the loop as written raises for every tag number of 256 or more |
| ExifEditor.AsWrittenAgreesOnTagIfds | data/generated_scripts/piexif/0.py:62-64 | on a dictionary holding only tag IFDs, the loop as written never raises and gives exactly `RemoveTag` |
| Warehouses.InitialState | data/generated_scripts/packaging/9.py:12-17 | the initial table has exactly the six named categories, each mapped to 0 |
| Warehouses.Update | data/generated_scripts/packaging/9.py:19-23 | succeeds exactly when the key is in the table; on success the key holds the new value, the key set is unchanged and every other key keeps its value; otherwise fails with `InvalidKey` for that key |
| Warehouses.LastWriteWins | data/generated_scripts/packaging/9.py:21 | two successive updates of the same existing key give the table that the second update alone gives |
| Warehouses.UpdateAllKeys | data/generated_scripts/packaging/9.py:19-23 | any sequence of updates, failed ones included, leaves the key set of the table unchanged |
| Warehouses.UpdateAllRejectsUnknown | data/generated_scripts/packaging/9.py:20-23 | a key not in the table never enters it, whatever sequence of updates is applied |
| Warehouses.Warehouse.constructor | data/generated_scripts/packaging/9.py:11-17 | a new warehouse's table is the initial table of six categories at 0 |
| Warehouses.Warehouse.UpdateState | data/generated_scripts/packaging/9.py:19-23 | passes exactly when the key is in the table and then makes the point update; otherwise fails with `InvalidKey` and leaves the table unchanged; the key set never changes, so the six-category invariant is kept, and on a valid warehouse exactly the six categories are accepted |
| Versions.CompareRelease | data/generated_scripts/packaging/9.py:51-53 | the release comparison, component by component with missing components read as 0, is always -1, 0 or 1 (proved through its recursive calls) |
| Versions.CompareReleasePadded | data/generated_scripts/packaging/9.py:51-53 | appending zero components does not change a release: 1.0.4 and 1.0.4.0 compare equal |
| Versions.ComparePre | data/generated_scripts/packaging/9.py:51-53 | at the pre-release segment, a present segment sorts before an absent one; the comparison is -1, 0 or 1 |
| Versions.ComparePreAntisymmetric | data/generated_scripts/packaging/9.py:51-53 | swapping two pre-release segments negates their comparison |
| Versions.Compare | data/generated_scripts/packaging/9.py:51-53 | the version comparison behind `v1 < v2` is always -1, 0 or 1 |
| Versions.LessStrict | data/generated_scripts/packaging/9.py:53 | `<` on versions is irreflexive and asymmetric |
| Versions.CompareReleaseTransitive | data/generated_scripts/packaging/9.py:51-53 | the release comparison is transitive, and strictly so when either step is strict |
| Versions.LessTransitive | data/generated_scripts/packaging/9.py:53 | `<` on versions is transitive, so together with irreflexivity it is a strict order |
| Versions.CompareReleaseReflexive | data/generated_scripts/packaging/9.py:51-52 | every release segment compares equal to itself |
| Versions.CompareReleaseAntisymmetric | data/generated_scripts/packaging/9.py:51-53 | swapping two release segments negates their comparison |
| Versions.CompareAntisymmetric | data/generated_scripts/packaging/9.py:51-53 | swapping two versions negates their comparison, so `<` is asymmetric |
| Versions.PreReleaseBeforeFinal | data/generated_scripts/packaging/9.py:51-53 | for every release and every pre-release, the pre-release sorts strictly before the final release and not after it |
| Versions.CompareVersions | data/generated_scripts/packaging/9.py:51-53 | 1.0.4a3 sorts strictly before 1.0.4 |

## Left out

- The piexif byte codec (`piexif.load`, `piexif.dump`) and PIL's image decode and save: the store holds the decoded block directly, so no byte-level round trip is claimed.
- The pixel payload after a save is `reencode` of the old payload, a function the caller supplies for PIL's decode and re-encode; since JPEG re-encoding is lossy, the model does not claim the payload is unchanged.
- piexif's `"thumbnail"` entry in the stored block: `piexif.load` returns it after the tag IFDs as `None` or bytes. On it the loop at `piexif/0.py:63-64` raises TypeError (`in` on None, or `del` on bytes that contain the tag) or ValueError (`in` on bytes with a tag outside 0..255), after the tag IFDs were edited in memory and before the dump and save at lines 67-70. So for almost every image the source raises and writes nothing. `RemoveTagAsWritten` and the lemmas beside it model this; `ExifEditor.FileStore.RemoveSpecificExifData` stores the evidently intended result over tag IFDs only (see Findings).
- Values whose type does not match their tag's declared type, which the EXIF codec may reject on dump: the model accepts every value.
- Files that exist but are not images (`Image.open` failing), directories, permissions and partial writes: every stored path is an image file, and writes are whole and atomic.
- The `__main__` demos of both scripts: placeholder paths, a key drawn at random from `piexif.TAGS.keys()` (IFD group names such as "Image", not tag numbers), and the PyTorch training run.
- The PyTorch dataset, model and trainer in `packaging/9.py`, the Twitter client and YAML helpers in `pyyaml/27.py`, `wheel/2.py` and the jsonmerge demo in `jsonmerge/21.py`: calls into libraries whose behaviour is not in the repository.
- The mock-based tests in `packaging/9.py:60-79`: they patch `update_state` away and never run it.
- PEP 440 parsing and normalisation, epochs, post-, dev- and local segments: only the release and a/b/rc pre-release segments take part in the comparison; `compare_versions`'s strings are written as `Version` values.
- `Warehouses.Warehouse.UpdateState`: values are integers, whereas Python accepts any value; the source and its tests only store integers.
- Key types: an EXIF tag is an `int` and a warehouse key a `string`, whereas Python accepts any hashable key. Nothing observable is lost: Python finds dict keys by hash and equality, so a key equal to an int (`271.0`, `numpy.int64(271)`, `True` for tag 1) acts as that int, which `Tag` represents; a key equal to no int (a string, say) is in no tag IFD, so removing it there is a no-op; and a non-string warehouse key is not one of the six categories, so `update_state` raises ValueError.
- Logging configuration and print statements.

## Findings

| source | as written | input that shows it | evidently intended | confidence | as-written member | corrected member |
|---|---|---|---|---|---|---|
| data/generated_scripts/piexif/0.py:62-64 | the loop visits every entry `piexif.load` returns, the `"thumbnail"` entry included, and evaluates `exif_key in entry` and `del entry[exif_key]` on it | an image without a thumbnail (`"thumbnail"` is None) and any tag, e.g. 272: `272 in None` raises TypeError, nothing is saved | delete the tag from every tag IFD, leave the thumbnail alone, and save | not executed; depends on `piexif.load` returning the thumbnail entry beside the tag IFDs | ExifEditor.AsWrittenFailsWithoutThumbnail | ExifEditor.RemoveTagLoop |

