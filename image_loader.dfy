/**
 * The image playlist: parallel lists of object URLs and file names with a current index.
 * Decoding, drawing and the object-URL lifetime are browser I/O and stay outside the model;
 * the URL a file receives is given with the file.
 */
module ImageLoader {
  import opened Wrappers
  import opened Arith

  /** A chosen file together with the object URL created for it. */
  datatype SelectedFile = SelectedFile(objectUrl: string, name: string)

  function Urls(files: seq<SelectedFile>): (us: seq<string>)
    ensures |us| == |files| && forall i | 0 <= i < |files| :: us[i] == files[i].objectUrl
  {
    seq(|files|, i requires 0 <= i < |files| => files[i].objectUrl)
  }

  function Names(files: seq<SelectedFile>): (ns: seq<string>)
    ensures |ns| == |files| && forall i | 0 <= i < |files| :: ns[i] == files[i].name
  {
    seq(|files|, i requires 0 <= i < |files| => files[i].name)
  }

  /** `splice(i, 1)` on a copy: the entry at `i` is gone, those before it stay put, those after it move down by one. */
  function RemoveAt<T>(s: seq<T>, i: nat): (r: seq<T>)
    requires i < |s|
    ensures |r| == |s| - 1
    ensures forall j | 0 <= j < i :: r[j] == s[j]
    ensures forall j | i <= j < |r| :: r[j] == s[j + 1]
    ensures multiset(r) + multiset{s[i]} == multiset(s)
  {
    assert s == s[..i] + [s[i]] + s[i + 1..];
    s[..i] + s[i + 1..]
  }

  /** Removing from the pairs is removing from each list at the same index. */
  lemma RemoveAtZip(images: seq<string>, filenames: seq<string>, i: nat)
    requires |images| == |filenames| && i < |images|
    ensures Zip(RemoveAt(images, i), RemoveAt(filenames, i)) == RemoveAt(Zip(images, filenames), i)
  {
    var l, r := Zip(RemoveAt(images, i), RemoveAt(filenames, i)), RemoveAt(Zip(images, filenames), i);
    assert |l| == |r|;
    forall j | 0 <= j < |l|
      ensures l[j] == r[j]
    {
      if j < i {
        assert l[j] == (images[j], filenames[j]);
      } else {
        assert l[j] == (images[j + 1], filenames[j + 1]);
      }
    }
  }

  /** The entries as (URL, name) pairs. */
  function Zip(images: seq<string>, filenames: seq<string>): (es: seq<(string, string)>)
    requires |images| == |filenames|
    ensures |es| == |images| && forall i | 0 <= i < |es| :: es[i] == (images[i], filenames[i])
  {
    seq(|images|, i requires 0 <= i < |images| => (images[i], filenames[i]))
  }

  /** Appending to each list is appending to the pairs. */
  lemma ZipAppend(images: seq<string>, filenames: seq<string>, files: seq<SelectedFile>)
    requires |images| == |filenames|
    ensures Zip(images + Urls(files), filenames + Names(files)) ==
      Zip(images, filenames) + seq(|files|, i requires 0 <= i < |files| => (files[i].objectUrl, files[i].name))
  {
  }

  /** The index valid for a list of `n` entries: in range when there are any, 0 otherwise. */
  predicate IndexFits(index: int, n: nat) {
    if n == 0 then index == 0 else 0 <= index < n
  }

  /** The index after removing entry `removed` from a list of `n`. */
  function IndexAfterRemove(removed: nat, n: nat): (i: int)
    requires removed < n
    ensures IndexFits(i, n - 1)
    ensures n > 1 && removed < n - 1 ==> i == removed
    ensures n > 1 && removed == n - 1 ==> i == n - 2
  {
    if n - 1 == 0 then 0 else if removed < n - 1 then removed else n - 2
  }

  /** Two files, for the worked removal below. */
  const TwoFiles: seq<SelectedFile> := [SelectedFile("blob:a", "a.png"), SelectedFile("blob:b", "b.png")]

  /**
   * Removing an entry that is not the last keeps the index, so a watcher on the index does not fire,
   * yet the entry at that index is now a different one.
   */
  lemma RemovalKeepsIndexButChangesEntry()
    ensures IndexAfterRemove(0, 2) == 0
    ensures RemoveAt(Urls(TwoFiles), 0)[0] == "blob:b" != Urls(TwoFiles)[0]
  {
  }

  class Playlist {
    var images: seq<string>
    var filenames: seq<string>
    var currentIndex: int
    var imageLoaded: bool
    /** The URL most recently handed to the image loader (`img.src`), if any. */
    var loadingUrl: Option<string>

    ghost predicate Valid()
      reads this
    {
      |images| == |filenames| && IndexFits(currentIndex, |images|)
    }

    /** The entries as (URL, name) pairs. */
    ghost function Entries(): seq<(string, string)>
      requires Valid()
      reads this
    {
      Zip(images, filenames)
    }

    /** While there are entries, the one being loaded is the current one. */
    predicate ShowsCurrent()
      requires Valid()
      reads this
    {
      |images| > 0 ==> loadingUrl == Some(images[currentIndex])
    }

    constructor ()
      ensures Valid() && ShowsCurrent()
      ensures images == [] && filenames == [] && currentIndex == 0 && !imageLoaded && loadingUrl == None
    {
      images := [];
      filenames := [];
      currentIndex := 0;
      imageLoaded := false;
      loadingUrl := None;
    }

    /** `loadCurrentImage`: clears `imageLoaded` and, when there are entries, starts loading the current one. */
    method LoadCurrentImage()
      requires Valid()
      modifies this`imageLoaded, this`loadingUrl
      ensures Valid() && ShowsCurrent() && !imageLoaded
      ensures loadingUrl == if |images| == 0 then old(loadingUrl) else Some(images[currentIndex])
    {
      imageLoaded := false;
      if |images| == 0 {
        return;
      }
      loadingUrl := Some(images[currentIndex]);
    }

    /** `watch(currentIndex, loadCurrentImage)`: a reload happens only when the index actually changed. */
    method IndexWatcher(previous: int)
      requires Valid()
      modifies this`imageLoaded, this`loadingUrl
      ensures Valid()
      ensures currentIndex == previous ==> imageLoaded == old(imageLoaded) && loadingUrl == old(loadingUrl)
      ensures currentIndex != previous ==>
        && ShowsCurrent() && !imageLoaded
        && loadingUrl == (if |images| == 0 then old(loadingUrl) else Some(images[currentIndex]))
    {
      if currentIndex != previous {
        LoadCurrentImage();
      }
    }

    /**
     * `onFilesSelected`: nothing happens without files; otherwise their URLs and names are appended,
     * and a list that was empty starts at index 0 and loads its first entry. The index of an empty
     * list is already 0, so the watcher stays quiet and the load is explicit.
     */
    method OnFilesSelected(files: seq<SelectedFile>)
      requires Valid()
      modifies this
      ensures Valid()
      ensures old(ShowsCurrent()) || (|files| > 0 && |old(images)| == 0) ==> ShowsCurrent()
      ensures images == old(images) + Urls(files) && filenames == old(filenames) + Names(files)
      ensures Entries() == old(Entries()) + seq(|files|, i requires 0 <= i < |files| => (files[i].objectUrl, files[i].name))
      ensures currentIndex == old(currentIndex)
      ensures |files| > 0 && |old(images)| == 0 ==> !imageLoaded && loadingUrl == Some(files[0].objectUrl)
      ensures !(|files| > 0 && |old(images)| == 0) ==> imageLoaded == old(imageLoaded) && loadingUrl == old(loadingUrl)
    {
      if |files| == 0 {
        return;
      }
      var newImages: seq<string> := [];
      var newFilenames: seq<string> := [];
      for k := 0 to |files|
        invariant newImages == Urls(files[..k]) && newFilenames == Names(files[..k])
      {
        newImages := newImages + [files[k].objectUrl];
        newFilenames := newFilenames + [files[k].name];
      }
      assert files[..|files|] == files;

      var hadImages := |images| > 0;
      ZipAppend(images, filenames, files);
      images := images + newImages;
      filenames := filenames + newFilenames;

      if !hadImages {
        var previous := currentIndex;
        currentIndex := 0;
        IndexWatcher(previous);
        LoadCurrentImage();
      }
    }

    /** `prevImage`: one step back unless already at the first entry; a step reloads. */
    method PrevImage()
      requires Valid()
      modifies this`currentIndex, this`imageLoaded, this`loadingUrl
      ensures Valid()
      ensures old(ShowsCurrent()) ==> ShowsCurrent()
      ensures currentIndex == if old(currentIndex) > 0 then old(currentIndex) - 1 else old(currentIndex)
      ensures currentIndex != old(currentIndex) ==> !imageLoaded && loadingUrl == Some(images[currentIndex])
      ensures currentIndex == old(currentIndex) ==> imageLoaded == old(imageLoaded) && loadingUrl == old(loadingUrl)
    {
      var previous := currentIndex;
      if currentIndex > 0 {
        currentIndex := currentIndex - 1;
      }
      IndexWatcher(previous);
    }

    /** `nextImage`: one step forward unless already at the last entry; a step reloads. */
    method NextImage()
      requires Valid()
      modifies this`currentIndex, this`imageLoaded, this`loadingUrl
      ensures Valid()
      ensures old(ShowsCurrent()) ==> ShowsCurrent()
      ensures currentIndex == if old(currentIndex) < |images| - 1 then old(currentIndex) + 1 else old(currentIndex)
      ensures currentIndex != old(currentIndex) ==> !imageLoaded && loadingUrl == Some(images[currentIndex])
      ensures currentIndex == old(currentIndex) ==> imageLoaded == old(imageLoaded) && loadingUrl == old(loadingUrl)
    {
      var previous := currentIndex;
      if currentIndex < |images| - 1 {
        currentIndex := currentIndex + 1;
      }
      IndexWatcher(previous);
    }

    /**
     * The removal itself: the current entry leaves both lists; the index stays put or falls back to
     * the new last entry, and removing the only entry resets it and clears `imageLoaded`.
     */
    method Splice()
      requires Valid() && |images| > 0
      modifies this`images, this`filenames, this`currentIndex, this`imageLoaded
      ensures Valid() && loadingUrl == old(loadingUrl)
      ensures images == RemoveAt(old(images), old(currentIndex))
      ensures filenames == RemoveAt(old(filenames), old(currentIndex))
      ensures Entries() == RemoveAt(old(Entries()), old(currentIndex))
      ensures currentIndex == IndexAfterRemove(old(currentIndex), |old(images)|)
      ensures imageLoaded == (|images| > 0 && old(imageLoaded))
    {
      var removeIndex := currentIndex;
      var nextImages := images[..removeIndex] + images[removeIndex + 1..];
      var nextFilenames := filenames[..removeIndex] + filenames[removeIndex + 1..];
      assert nextImages == RemoveAt(images, removeIndex);
      assert nextFilenames == RemoveAt(filenames, removeIndex);
      RemoveAtZip(images, filenames, removeIndex);
      images := nextImages;
      filenames := nextFilenames;

      if |images| == 0 {
        currentIndex := 0;
        imageLoaded := false;
        return;
      }
      currentIndex := Min(removeIndex, |images| - 1);
    }

    /**
     * `removeCurrentImage` as written: only the index watcher reloads, so removing an entry that is
     * not the last keeps the old load in place although the current entry is now the next one.
     */
    method RemoveCurrentImageAsWritten()
      requires Valid()
      modifies this
      ensures Valid()
      ensures |old(images)| == 0 ==>
        && images == old(images) && filenames == old(filenames) && currentIndex == old(currentIndex)
        && imageLoaded == old(imageLoaded) && loadingUrl == old(loadingUrl)
      ensures |old(images)| > 0 ==>
        && images == RemoveAt(old(images), old(currentIndex))
        && filenames == RemoveAt(old(filenames), old(currentIndex))
        && Entries() == RemoveAt(old(Entries()), old(currentIndex))
        && currentIndex == IndexAfterRemove(old(currentIndex), |old(images)|)
      ensures |old(images)| > 0 && currentIndex == old(currentIndex) ==>
        imageLoaded == (|images| > 0 && old(imageLoaded)) && loadingUrl == old(loadingUrl)
      ensures |old(images)| > 0 && currentIndex != old(currentIndex) ==>
        && !imageLoaded && ShowsCurrent()
        && loadingUrl == (if |images| == 0 then old(loadingUrl) else Some(images[currentIndex]))
    {
      if |images| == 0 {
        return;
      }
      var previous := currentIndex;
      Splice();
      IndexWatcher(previous);
    }

    /**
     * `removeCurrentImage` with the reload it evidently intends: after the removal the current entry
     * is loaded afresh whenever one is left, whether or not the index moved.
     */
    method RemoveCurrentImage()
      requires Valid()
      modifies this
      ensures Valid()
      ensures |old(images)| == 0 ==>
        && images == old(images) && filenames == old(filenames) && currentIndex == old(currentIndex)
        && imageLoaded == old(imageLoaded) && loadingUrl == old(loadingUrl)
      ensures |old(images)| > 0 ==>
        && images == RemoveAt(old(images), old(currentIndex))
        && filenames == RemoveAt(old(filenames), old(currentIndex))
        && Entries() == RemoveAt(old(Entries()), old(currentIndex))
        && currentIndex == IndexAfterRemove(old(currentIndex), |old(images)|)
        && !imageLoaded && ShowsCurrent()
      ensures |old(images)| == 1 ==> loadingUrl == old(loadingUrl)
    {
      if |images| == 0 {
        return;
      }
      Splice();
      ghost var images', filenames', index', entries' := images, filenames, currentIndex, Entries();
      LoadCurrentImage();
      assert images == images' && filenames == filenames' && currentIndex == index' && Entries() == entries';
    }
  }

  /** Two files loaded, the first removed as written: the playlist is left loading the removed file. */
  method StaleAfterRemovalAsWritten() returns (stale: bool, loading: Option<string>, current: string)
    ensures stale && loading == Some("blob:a") && current == "blob:b"
  {
    var p := new Playlist();
    p.OnFilesSelected(TwoFiles);
    p.RemoveCurrentImageAsWritten();
    RemovalKeepsIndexButChangesEntry();
    stale := !p.ShowsCurrent();
    loading, current := p.loadingUrl, p.images[p.currentIndex];
  }

  /** The same steps with the reload in place leave the playlist loading the entry it now shows. */
  method ReloadAfterRemoval() returns (loading: Option<string>, current: string)
    ensures loading == Some(current) && current == "blob:b"
  {
    var p := new Playlist();
    p.OnFilesSelected(TwoFiles);
    p.RemoveCurrentImage();
    loading, current := p.loadingUrl, p.images[p.currentIndex];
  }
}
