/** `face_auth/verify_faces.py`: verifies the most recently modified captured image against a FLAT
    enrolled map `name -> embedding` (the format `face_auth/build_embeddings.py` writes), with an
    inclusive threshold. Euclidean distance is the abstract `dist`; the directory listing with its
    modification times, the embeddings file and the embedding extraction are inputs. */
module VerifyFaces {
  import opened Common
  import opened Text
  import opened Matching

  /** `THRESHOLD`, the default of `verify_embedding`'s `threshold` parameter. */
  const Threshold: real := 0.6

  /** One name returned by `os.listdir(CAPTURED_DIR)` and its `os.path.getmtime`. */
  datatype FileStat = FileStat(name: string, mtime: real)

  /** The dict `verify_latest_image` returns: a failure with its reason, or the matcher's dict plus `image_path`. */
  datatype Report = Failed(reason: string) | Verified(verification: Verification, imagePath: string)

  /** `verify_embedding`: one reference per name, the first closest name kept, `min_distance <= threshold` accepts. */
  method VerifyEmbedding<E>(target: E, known: seq<Ref<E>>, dist: (E, E) -> real, threshold: real)
    returns (v: Verification)
    ensures v == Judge(BestMatch(target, known, dist), threshold)
    ensures v.status == "authorized" <==> (|known| > 0 && BestMatch(target, known, dist).score.value <= threshold)
    ensures v.status != "authorized" ==> v == Verification("intruder", None, v.distance)
  {
    var bestMatch: Option<string> := None;
    var minDistance := Infinite;
    for k := 0 to |known|
      invariant Match(bestMatch, minDistance) == BestMatch(target, known[..k], dist)
    {
      var distance := dist(target, known[k].embedding);
      BestMatchSnoc(target, known[..k], known[k], dist);
      assert known[..k + 1] == known[..k] + [known[k]];
      if Improves(distance, minDistance) {
        minDistance := Finite(distance);
        bestMatch := Some(known[k].name);
      }
    }
    assert known[..|known|] == known;
    if AtMost(minDistance, threshold) {
      v := Verification("authorized", bestMatch, minDistance);
    } else {
      v := Verification("intruder", None, minDistance);
    }
  }

  /** `f.lower().endswith(('.png', '.jpg', '.jpeg'))`. */
  predicate IsImageName(name: string) {
    var n := Lower(name);
    EndsWith(n, ".png") || EndsWith(n, ".jpg") || EndsWith(n, ".jpeg")
  }

  /** The listing restricted to image names, in listing order. */
  function Candidates(files: seq<FileStat>): (c: seq<FileStat>)
    ensures forall f :: f in c <==> f in files && IsImageName(f.name)
  {
    if files == [] then []
    else Candidates(files[..|files| - 1]) + (if IsImageName(files[|files| - 1].name) then [files[|files| - 1]] else [])
  }

  function MTimes(c: seq<FileStat>): (ts: seq<real>)
    ensures |ts| == |c| && forall i :: 0 <= i < |c| ==> ts[i] == c[i].mtime
  {
    seq(|c|, i requires 0 <= i < |c| => c[i].mtime)
  }

  /** `images[0]` of the candidates sorted by modification time, newest first. The sort is stable, so among
      equally recent images the one listed first comes first. */
  function Latest(files: seq<FileStat>): (f: FileStat)
    requires Candidates(files) != []
    ensures f in files && IsImageName(f.name)
    ensures forall g :: g in files && IsImageName(g.name) ==> g.mtime <= f.mtime
    ensures exists i :: IsFirstMax(MTimes(Candidates(files)), i) && f == Candidates(files)[i]
  {
    var c := Candidates(files);
    var i := FirstMaxIndex(MTimes(c));
    assert forall g :: g in c ==> g.mtime <= c[i].mtime by {
      forall g | g in c ensures g.mtime <= c[i].mtime {
        var j :| 0 <= j < |c| && c[j] == g;
        assert MTimes(c)[j] <= MTimes(c)[i];
      }
    }
    c[i]
  }

  /** `verify_latest_image`. `listing` is `os.listdir` with the modification times (or the exception they
      raise), `loaded` the result of `load_embeddings()`, `extract` the embedding extraction. */
  method VerifyLatestImage<E>(capturedDir: string, listing: Outcome<seq<FileStat>>, loaded: Outcome<seq<Ref<E>>>,
                              extract: string -> Option<E>, dist: (E, E) -> real)
    returns (report: Report)
    ensures listing.Raise? ==> report == Failed(listing.error)
    ensures listing.Return? && Candidates(listing.value) == [] ==> report == Failed("No captured images found.")
    ensures listing.Return? && Candidates(listing.value) != [] ==>
              var path := capturedDir + "/" + Latest(listing.value).name;
              report == match loaded
                        case Raise(e) => Failed(e)
                        case Return(known) =>
                          match extract(path)
                          case None => Failed("Face detection or embedding failed.")
                          case Some(target) => Verified(Judge(BestMatch(target, known, dist), Threshold), path)
    ensures report.Verified? ==> report.imagePath == capturedDir + "/" + Latest(listing.value).name
  {
    if listing.Raise? {
      return Failed(listing.error);
    }
    var images := Candidates(listing.value);
    if images == [] {
      return Failed("No captured images found.");
    }
    var latestImagePath := capturedDir + "/" + Latest(listing.value).name;
    if loaded.Raise? {
      return Failed(loaded.error);
    }
    var targetEmbedding := extract(latestImagePath);
    if targetEmbedding.None? {
      return Failed("Face detection or embedding failed.");
    }
    var result := VerifyEmbedding(targetEmbedding.value, loaded.value, dist, Threshold);
    report := Verified(result, latestImagePath);
  }
}
