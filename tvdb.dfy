/** The catalog client's pure steps (`useTVDB`): image path normalisation and the first-page
    truncation and mapping of `fetchMovies` and `fetchSeries`. */
module Tvdb {
  import opened Wrappers

  const ArtworkBase: string := "https://artworks.thetvdb.com/"

  /** The path with at most one leading '/' removed. */
  function StripSlash(path: string): (p: string)
    ensures "/" <= path ==> "/" + p == path
    ensures !("/" <= path) ==> p == path
  {
    if "/" <= path then path[1..] else path
  }

  /** `getFullImageUrl`. */
  function FullImageUrl(imagePath: string): (url: string)
    ensures ArtworkBase <= url
    ensures |url| == |ArtworkBase| + |imagePath| - (if "/" <= imagePath then 1 else 0)
    ensures url[|ArtworkBase|..] == StripSlash(imagePath)
  {
    ArtworkBase + StripSlash(imagePath)
  }

  /** Two paths give the same URL exactly when they agree after one leading '/' is removed. */
  lemma SameUrlIffSameStrippedPath(a: string, b: string)
    ensures FullImageUrl(a) == FullImageUrl(b) <==> StripSlash(a) == StripSlash(b)
  {
    if FullImageUrl(a) == FullImageUrl(b) {
      assert FullImageUrl(a)[|ArtworkBase|..] == FullImageUrl(b)[|ArtworkBase|..];
    }
  }

  /** A leading '/' makes no difference ... */
  lemma LeadingSlashIgnored(path: string)
    requires !("/" <= path)
    ensures FullImageUrl("/" + path) == FullImageUrl(path)
  {
    assert ("/" + path)[1..] == path;
  }

  /** ... but only one is removed. */
  lemma OnlyOneSlashStripped(path: string)
    ensures FullImageUrl("//" + path) == ArtworkBase + "/" + path
  {
    assert ("//" + path)[1..] == "/" + path;
  }

  /** A catalog record: its `image` (missing, null or a string) and every other field. */
  datatype Item<T> = Item(image: Option<string>, rest: T)

  /** Whether `image` is truthy: present and not the empty string. */
  predicate Truthy(image: Option<string>)
  {
    image.Some? && image.value != ""
  }

  /** `{ ...item, image: item.image ? getFullImageUrl(item.image) : null }`. */
  function WithFullImage<T>(item: Item<T>): (r: Item<T>)
    ensures r.rest == item.rest
    ensures Truthy(item.image) ==> r.image == Some(FullImageUrl(item.image.value))
    ensures !Truthy(item.image) ==> r.image == None
  {
    Item(if Truthy(item.image) then Some(FullImageUrl(item.image.value)) else None, item.rest)
  }

  /** `items.map(WithFullImage)`. */
  function MapImages<T>(items: seq<Item<T>>): (r: seq<Item<T>>)
    ensures |r| == |items|
    ensures forall i :: 0 <= i < |items| ==> r[i].rest == items[i].rest
    ensures forall i :: 0 <= i < |items| ==>
      (Truthy(items[i].image) ==> r[i].image == Some(FullImageUrl(items[i].image.value))) &&
      (!Truthy(items[i].image) ==> r[i].image == None)
  {
    if items == [] then [] else [WithFullImage(items[0])] + MapImages(items[1..])
  }

  const PageSize: nat := 10

  /** `data.slice(0, 10).map(...)`: the first ten records, in order, with absolute image URLs. */
  function FirstPage<T>(data: seq<Item<T>>): (page: seq<Item<T>>)
    ensures |page| == if |data| < PageSize then |data| else PageSize
    ensures forall i :: 0 <= i < |page| ==> page[i] == WithFullImage(data[i])
  {
    MapImages(if |data| < PageSize then data else data[..PageSize])
  }

  /** The catalog's answer to a page request: its `data`, or the failure body's `message`. */
  datatype Response<T> = Success(data: seq<Item<T>>) | Failure(message: string)

  /** `fetchMovies` once the response has arrived: the first page, or the error it throws. */
  function FetchMovies<T>(response: Response<T>): (r: Result<seq<Item<T>>, string>)
    ensures r.Err? <==> response.Failure?
    ensures r.Err? ==> r.error == "Películas: " + response.message
    ensures r.Ok? ==> r.value == FirstPage(response.data)
  {
    match response
    case Failure(message) => Err("Películas: " + message)
    case Success(data) => Ok(FirstPage(data))
  }

  /** `fetchSeries` once the response has arrived: the first page, or the error it throws. */
  function FetchSeries<T>(response: Response<T>): (r: Result<seq<Item<T>>, string>)
    ensures r.Err? <==> response.Failure?
    ensures r.Err? ==> r.error == "Series: " + response.message
    ensures r.Ok? ==> r.value == FirstPage(response.data)
  {
    match response
    case Failure(message) => Err("Series: " + message)
    case Success(data) => Ok(FirstPage(data))
  }
}
