/**
  The image gallery of a message: up to three thumbnails, a "n more"
  placeholder over the fourth image when there are more than three, and a
  lightbox whose open state and current index the clicks toggle.
 */
module Gallery {
  import opened Js

  /** An image attachment: its full-size and thumbnail urls, either possibly missing. */
  datatype Image = Image(image_url: Option<string>, thumb_url: Option<string>)

  /** The url the lightbox shows for an image: `image_url || thumb_url || ''`. */
  function SlideUrl(img: Image): (r: string)
    ensures Truthy(img.image_url) ==> r == img.image_url.value
    ensures !Truthy(img.image_url) && Truthy(img.thumb_url) ==> r == img.thumb_url.value
    ensures r == "" <==> !Truthy(img.image_url) && !Truthy(img.thumb_url)
  {
    OrElse(OrElse(img.image_url, img.thumb_url), Some("")).value
  }

  /** One entry of the lightbox's image list. */
  datatype Slide = Slide(source: string, src: string)

  /** `formattedArray`: one slide per image, in order, both fields set to the image's url. */
  function FormattedArray(images: seq<Image>): (r: seq<Slide>)
    ensures |r| == |images|
    ensures forall i | 0 <= i < |r| :: r[i].source == SlideUrl(images[i]) && r[i].src == r[i].source
  {
    seq(|images|, i requires 0 <= i < |images| => Slide(SlideUrl(images[i]), SlideUrl(images[i])))
  }

  /** The number of thumbnails the grid shows. */
  const MaxThumbnails := 3

  /** A grid cell: the url of its image (`image_url || thumb_url`) and the index a click opens. */
  datatype Thumbnail = Thumbnail(src: Option<string>, opens: nat)

  /** `images.slice(0, 3).map(...)`: the first three images, in order, thumbnail `i` opening index `i`. */
  function Thumbnails(images: seq<Image>): (r: seq<Thumbnail>)
    ensures |r| == Min(MaxThumbnails, |images|)
    ensures forall i | 0 <= i < |r| ::
      r[i].opens == i && r[i].src == OrElse(images[i].image_url, images[i].thumb_url)
  {
    var n := Min(MaxThumbnails, |images|);
    seq(n, i requires 0 <= i < n => Thumbnail(OrElse(images[i].image_url, images[i].thumb_url), i))
  }

  /** The "n more" tile: its count, the index a click opens, and its CSS background. */
  datatype Placeholder = Placeholder(count: nat, opens: nat, background: string)

  /** A template literal prints a missing value as `undefined`. */
  function Interpolate(s: Option<string>): string
  {
    if s.Some? then s.value else "undefined"
  }

  /**
    The placeholder, shown exactly when there are more than three images:
    it counts the images not in the grid, opens the fourth image and shows
    that image as its background.
   */
  function MorePlaceholder(images: seq<Image>): (r: Option<Placeholder>)
    ensures r.Some? <==> |images| > MaxThumbnails
    ensures r.Some? ==>
      && r.value.count == |images| - MaxThumbnails
      && r.value.count + |Thumbnails(images)| == |images|
      && r.value.opens == MaxThumbnails
      && r.value.background == "url(" + Interpolate(images[MaxThumbnails].image_url) + ")"
  {
    if |images| > MaxThumbnails then
      Some(Placeholder(|images| - MaxThumbnails, MaxThumbnails,
                       "url(" + Interpolate(images[MaxThumbnails].image_url) + ")"))
    else None
  }

  /** Every click target of the gallery opens the lightbox at the index of an existing slide. */
  lemma ClickTargetsInRange(images: seq<Image>)
    ensures forall t | t in Thumbnails(images) :: t.opens < |FormattedArray(images)|
    ensures MorePlaceholder(images).Some? ==> MorePlaceholder(images).value.opens < |FormattedArray(images)|
  {
    var ts := Thumbnails(images);
    forall t | t in ts ensures t.opens < |images| {
      var i :| 0 <= i < |ts| && ts[i] == t;
    }
  }

  /** The lightbox state: the current index and whether the modal is open. */
  datatype LightboxState = LightboxState(index: int, open: bool)

  /**
    `toggleModal(selectedIndex)` on a state: an open lightbox closes and keeps
    its index; a closed one opens at `selectedIndex`.
   */
  function Toggled(s: LightboxState, selectedIndex: int): (r: LightboxState)
    ensures r.open == !s.open
    ensures r.index == if s.open then s.index else selectedIndex
  {
    if s.open then LightboxState(s.index, false) else LightboxState(selectedIndex, true)
  }

  /** Clicking twice, with anything as the second target, returns to a closed lightbox showing the first target. */
  lemma ToggleTwice(s: LightboxState, i: int, j: int)
    requires !s.open
    ensures Toggled(Toggled(s, i), j) == LightboxState(i, false)
  {
  }

  /** While every click opens an existing slide, the index stays on an existing slide. */
  lemma ToggleKeepsIndexInRange(s: LightboxState, i: int, n: nat)
    requires 0 <= s.index < n && 0 <= i < n
    ensures 0 <= Toggled(s, i).index < n
  {
  }

  /** The gallery's lightbox state, as kept by its two `useState` hooks. */
  class Lightbox {
    var index: int
    var modalOpen: bool

    /** `useState(0)` and `useState(false)`. */
    constructor()
      ensures index == 0 && !modalOpen
    {
      index := 0;
      modalOpen := false;
    }

    function State(): LightboxState
      reads this
    {
      LightboxState(index, modalOpen)
    }

    /** `toggleModal(selectedIndex)`. */
    method ToggleModal(selectedIndex: int)
      modifies this
      ensures State() == Toggled(old(State()), selectedIndex)
      ensures old(modalOpen) ==> !modalOpen && index == old(index)
      ensures !old(modalOpen) ==> modalOpen && index == selectedIndex
    {
      if modalOpen {
        modalOpen := false;
      } else {
        index := selectedIndex;
        modalOpen := true;
      }
    }
  }
}
