/**
 * The track list of src/app/musics/page.tsx: ten tracks per page, the snapshot
 * callback that replaces the list, the page change and the click on a row.
 */
module MusicsPage {
  import opened Base
  import opened JsStrings
  import opened Player

  const PageSize: nat := 10

  /** `Math.ceil(musics.length / 10)`: the fewest pages that hold every track. */
  function PageCount(len: nat): (n: nat)
    ensures n * PageSize >= len
    ensures n > 0 ==> (n - 1) * PageSize < len
  {
    (len + PageSize - 1) / PageSize
  }

  /** `musics.slice((page - 1) * 10, page * 10)`: the tracks shown on page `page`. */
  function PageItems<T>(musics: seq<T>, page: int): (r: seq<T>)
    requires page >= 1
    ensures r == musics[Min((page - 1) * PageSize, |musics|)..Min(page * PageSize, |musics|)]
    ensures |r| <= PageSize
    ensures forall i :: 0 <= i < |r| ==> (page - 1) * PageSize + i < |musics| && r[i] == musics[(page - 1) * PageSize + i]
    ensures page * PageSize <= |musics| ==> |r| == PageSize
    ensures r == [] <==> page > PageCount(|musics|)
  {
    Slice(musics, (page - 1) * PageSize, page * PageSize)
  }

  /** Pages 1 to `k`, one after the other. */
  function PagesUpTo<T>(musics: seq<T>, k: nat): seq<T> {
    if k == 0 then [] else PagesUpTo(musics, k - 1) + PageItems(musics, k)
  }

  /** The first `k` pages are the first `10 k` tracks. */
  lemma {:induction false} PagesUpToIsPrefix<T>(musics: seq<T>, k: nat)
    ensures PagesUpTo(musics, k) == musics[..Min(k * PageSize, |musics|)]
  {
    if k > 0 {
      PagesUpToIsPrefix(musics, k - 1);
      var lo := Min((k - 1) * PageSize, |musics|);
      var hi := Min(k * PageSize, |musics|);
      assert PageItems(musics, k) == musics[lo..hi];
      assert musics[..lo] + musics[lo..hi] == musics[..hi];
    }
  }

  /** Every track is on exactly one page: the pages together are the whole list. */
  lemma PagesCoverList<T>(musics: seq<T>)
    ensures PagesUpTo(musics, PageCount(|musics|)) == musics
  {
    PagesUpToIsPrefix(musics, PageCount(|musics|));
  }

  /**
   * On page two and beyond the row index is position `index` of the page, while the
   * click handler reads `musics[index]`, a track of page one.
   */
  lemma {:induction false} ClickIndexIsPageRelative<T>(musics: seq<T>, page: int, index: int)
    requires page >= 2
    requires forall i, j :: 0 <= i < j < |musics| ==> musics[i] != musics[j]
    requires 0 <= index < |PageItems(musics, page)|
    ensures index < |musics| && musics[index] != PageItems(musics, page)[index]
  {
    var shown := (page - 1) * PageSize + index;
    assert PageItems(musics, page)[index] == musics[shown];
    assert index < shown;
  }

  /**
   * A snapshot resets the rows to page one but not `page`: on any other page that
   * holds tracks, the control names one page while the rows are those of another.
   */
  lemma {:induction false} SnapshotRowsDisagreeWithPage<T>(data: seq<T>, page: int)
    requires 2 <= page <= PageCount(|data|)
    requires forall i, j :: 0 <= i < j < |data| ==> data[i] != data[j]
    ensures PageItems(data, 1) != PageItems(data, page)
  {
    assert PageItems(data, page)[0] == data[(page - 1) * PageSize];
    assert PageItems(data, 1)[0] == data[0];
  }

  /** The component's state; `service` is the shared music service. */
  class Musics {
    var page: int
    var musics: seq<Music>
    var onPage: seq<Music>
    var selectedIndex: int
    /** The page whose tracks `onPage` holds. */
    ghost var shownPage: int
    const service: MusicService

    /** `onPage` is one page of `musics`. */
    ghost predicate Valid()
      reads this
    {
      shownPage >= 1 && onPage == PageItems(musics, shownPage)
    }

    constructor (service: MusicService)
      ensures page == 1 && musics == [] && onPage == [] && selectedIndex == 0
      ensures this.service == service
      ensures Valid() && shownPage == 1
    {
      page := 1;
      musics := [];
      onPage := [];
      selectedIndex := 0;
      shownPage := 1;
      this.service := service;
    }

    /** The snapshot callback: a new list, its first page shown, `page` left as it was. */
    method OnSnapshot(data: seq<Music>)
      modifies this`musics, this`onPage, this`shownPage
      ensures musics == data && onPage == PageItems(data, 1) && page == old(page)
      ensures Valid() && shownPage == 1
    {
      musics := data;
      onPage := Slice(data, 0, PageSize);
      shownPage := 1;
    }

    /** `onChange` of the pagination control. */
    method OnPageChange(value: int)
      requires value >= 1
      modifies this`page, this`onPage, this`shownPage
      ensures page == value && onPage == PageItems(musics, value)
      ensures Valid() && shownPage == value
    {
      page := value;
      onPage := Slice(musics, (value - 1) * PageSize, value * PageSize);
      shownPage := value;
    }

    /**
     * `handleListItemClick`: `index` is the row on the current page; the track is
     * read from the full list, and assigned only when it is not already current.
     */
    method HandleListItemClick(index: int)
      requires Valid() && 0 <= index < |onPage|
      modifies this`selectedIndex, service
      ensures selectedIndex == index
      ensures index < |musics| && service.music == musics[index]
      ensures old(service.music) == musics[index] ==> unchanged(service)
      ensures old(service.music) != musics[index] ==> service.src == musics[index].audio && service.isPlaying
    {
      selectedIndex := index;
      assert onPage[index] == musics[(shownPage - 1) * PageSize + index];
      if service.music != musics[index] {
        service.SetMusic(musics[index]);
      }
    }

    /** The click as intended: the track of the clicked row. */
    method HandleListItemClickIntended(index: int)
      requires Valid() && 0 <= index < |onPage|
      modifies this`selectedIndex, service
      ensures selectedIndex == index
      ensures service.music == onPage[index] == musics[(shownPage - 1) * PageSize + index]
      ensures old(service.music) == onPage[index] ==> unchanged(service)
      ensures old(service.music) != onPage[index] ==> service.src == onPage[index].audio && service.isPlaying
    {
      selectedIndex := index;
      if service.music != onPage[index] {
        service.SetMusic(onPage[index]);
      }
    }
  }
}
