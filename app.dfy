/**
 * The two pieces of frontend logic that decide which picture is shown: the image path
 * normaliser and the choice of the detail modal's picture.
 */
module App {
  import opened Wrappers
  import opened Domain
  import opened Text
  import PropertyRepository

  /**
   * `resolveImage`: no path or an empty one gives "", an absolute URL (starting with
   * "http") is kept, and any other path is made root-relative by replacing at most one
   * leading "/" with a single one.
   */
  function ResolveImage(path: Option<string>): (r: string)
    ensures path.None? || path.value == "" ==> r == ""
    ensures path.Some? && StartsWith(path.value, "http") ==> r == path.value
    ensures path.Some? && path.value != "" && !StartsWith(path.value, "http") ==>
              r == if path.value[0] == '/' then path.value else "/" + path.value
    ensures r == "" || StartsWith(r, "http") || r[0] == '/'
  {
    if path.None? || path.value == "" then ""
    else if StartsWith(path.value, "http") then path.value
    else "/" + (if StartsWith(path.value, "/") then path.value[1..] else path.value)
  }

  /** Resolving a resolved path changes nothing. */
  lemma ResolveIdempotent(path: Option<string>)
    ensures ResolveImage(Some(ResolveImage(path))) == ResolveImage(path)
  {
    var r := ResolveImage(path);
    if r != "" && !StartsWith(r, "http") {
      assert r[0] == '/';
    }
  }

  /** A relative path and the same path with a leading "/" resolve alike. */
  lemma ResolveIgnoresLeadingSlash(path: string)
    requires path != "" && path[0] != '/' && !StartsWith(path, "http")
    ensures ResolveImage(Some(path)) == ResolveImage(Some("/" + path))
  {
    assert ("/" + path)[0] == '/';
    assert !StartsWith("/" + path, "http") by {
      assert ("/" + path)[0] != "http"[0];
    }
  }

  /**
   * The detail modal's picture: the first detail image when there is one and it is
   * not empty, otherwise the list thumbnail; either one resolved.
   */
  function DetailImage(images: Option<seq<string>>, thumbnail: Option<string>): (r: string)
    ensures r == "" || StartsWith(r, "http") || r[0] == '/'
    ensures r == "" <==> !(images.Some? && images.value != [] && images.value[0] != "")
                         && (thumbnail.None? || thumbnail.value == "")
  {
    if images.Some? && images.value != [] && images.value[0] != "" then ResolveImage(Some(images.value[0]))
    else ResolveImage(thumbnail)
  }

  /**
   * When the detail and the list row come from the same store, the modal shows the
   * same picture as the row: the property's first enabled image, resolved.
   */
  lemma DetailImageIsThumbnail(db: Store, id: Int32)
    requires PropertyRepository.GetById(db, id).Some?
    ensures var detail := PropertyRepository.GetById(db, id).value;
            var thumbnail := PropertyRepository.FirstEnabledFile(db.images, id);
            DetailImage(Some(detail.images), Some(thumbnail)) == ResolveImage(Some(thumbnail))
  {
    var detail := PropertyRepository.GetById(db, id).value;
    assert detail.images == PropertyRepository.EnabledFiles(db.images, id);
    PropertyRepository.ThumbnailIsFirstImage(db.images, id);
  }
}
