/** The read-through image cache of `CachedImage` (src/helpers/image.js).

    On mount the component looks its `uri` up in the device's persistent
    key-value store. A truthy stored value is shown as is. Otherwise the image
    is downloaded, turned into a `data:` URL, written to the store under `uri`
    and then shown. Any thrown error is caught and logged, and the component
    keeps showing nothing. */
module ImageCache {
  import opened Wrappers

  /** What `fetch(uri)`, reading the body as a blob and `FileReader.readAsDataURL`
      produced together. `fetch` resolves for every HTTP status, so `status` is
      carried but never looked at. */
  datatype Download = Downloaded(status: nat, dataUrl: string) | DownloadFailed

  /** The outcomes of the awaited calls of one resolution, chosen by the
      environment: whether `getItem` rejects, what the download gives, and
      whether `setItem` rejects. */
  datatype Environment = Environment(readFails: bool, download: Download, writeFails: bool)

  /** The store after one resolution and the component's `cachedSource`
      (`None` is the initial `null`). */
  datatype Resolution = Resolution(store: map<string, string>, source: Option<string>)

  datatype StorageError = StorageError

  /** `if (cachedImageData)`: a stored value is used only when it is present
      and truthy, that is, not the empty string. */
  predicate IsHit(store: map<string, string>, uri: string) {
    uri in store && store[uri] != ""
  }

  /** The outcome of the mount-time effect, as a function of the store it
      starts from. */
  function Resolve(store: map<string, string>, uri: string, env: Environment): (r: Resolution)
    // a hit shows the stored value and writes nothing, whatever the network would do
    ensures !env.readFails && IsHit(store, uri) ==> r == Resolution(store, Some(store[uri]))
    // a miss whose download and write succeed stores exactly the downloaded data URL and shows it
    ensures !env.readFails && !IsHit(store, uri) && env.download.Downloaded? && !env.writeFails ==>
              r == Resolution(store[uri := env.download.dataUrl], Some(env.download.dataUrl))
    // a failed read, download or write changes nothing and leaves the source null
    ensures env.readFails || (!IsHit(store, uri) && (env.download.DownloadFailed? || env.writeFails)) ==>
              r == Resolution(store, None)
    // whenever something is written, it is one entry, under `uri`, holding what is shown
    ensures r.store == store || (r.source.Some? && r.store == store[uri := r.source.value])
    // an existing truthy entry is never overwritten
    ensures IsHit(store, uri) ==> r.store == store
  {
    if env.readFails then Resolution(store, None)
    else if IsHit(store, uri) then Resolution(store, Some(store[uri]))
    else match env.download
      case DownloadFailed => Resolution(store, None)
      case Downloaded(_, dataUrl) =>
        if env.writeFails then Resolution(store, None)
        else Resolution(store[uri := dataUrl], Some(dataUrl))
  }

  /** Entries under keys other than `uri` are never added, removed or changed. */
  lemma OtherKeysUntouched(store: map<string, string>, uri: string, env: Environment, key: string)
    requires key != uri
    ensures key in Resolve(store, uri, env).store <==> key in store
    ensures key in store ==> Resolve(store, uri, env).store[key] == store[key]
  {
  }

  /** A stored empty string is falsy: it is refetched and replaced. */
  lemma EmptyEntryIsRefetched(store: map<string, string>, uri: string, dataUrl: string)
    requires uri in store && store[uri] == ""
    ensures Resolve(store, uri, Environment(false, Downloaded(200, dataUrl), false))
            == Resolution(store[uri := dataUrl], Some(dataUrl))
  {
  }

  /** The write comes before the source is set: when it fails, the download is
      lost and nothing is shown. */
  lemma WriteFailureShowsNothing(store: map<string, string>, uri: string, dataUrl: string)
    requires !IsHit(store, uri)
    ensures Resolve(store, uri, Environment(false, Downloaded(200, dataUrl), true))
            == Resolution(store, None)
  {
  }

  /** Once a resolution has shown a non-empty data URL, every later
      resolution of the same `uri` whose read succeeds is a hit: it shows the
      identical string, writes nothing and needs no download. */
  lemma LaterResolutionsHit(store: map<string, string>, uri: string, first: Environment, later: Environment)
    requires Resolve(store, uri, first).source.Some?
    requires Resolve(store, uri, first).source.value != ""
    requires !later.readFails
    ensures IsHit(Resolve(store, uri, first).store, uri)
    ensures Resolve(Resolve(store, uri, first).store, uri, later) == Resolve(store, uri, first)
  {
  }

  /** No negative caching: a failed resolution leaves the store as it was, so
      the next one behaves exactly as if the failed one had not happened. */
  lemma FailureIsForgotten(store: map<string, string>, uri: string, failed: Environment, next: Environment)
    requires Resolve(store, uri, failed).source.None?
    ensures Resolve(Resolve(store, uri, failed).store, uri, next) == Resolve(store, uri, next)
  {
  }

  /** Because `fetch` resolves for HTTP error statuses too, the body of an
      error response is encoded, stored and served from then on. */
  lemma ErrorResponseIsCached(store: map<string, string>, uri: string, errorBody: string, later: Environment)
    requires !IsHit(store, uri) && errorBody != ""
    requires !later.readFails
    ensures Resolve(store, uri, Environment(false, Downloaded(404, errorBody), false))
            == Resolution(store[uri := errorBody], Some(errorBody))
    ensures Resolve(store[uri := errorBody], uri, later).source == Some(errorBody)
  {
  }

  /** `AsyncStorage`: the persistent key-value store shared by every mounted
      image. Each call's success or rejection is chosen by the caller. */
  class Store {
    var items: map<string, string>

    constructor (items: map<string, string>)
      ensures this.items == items
    {
      this.items := items;
    }

    /** `getItem(key)`: the stored value, `None` for `null`, or a rejection. */
    method GetItem(key: string, fails: bool) returns (r: Result<Option<string>, StorageError>)
      ensures fails ==> r == Failure(StorageError)
      ensures !fails ==> r == Success(if key in items then Some(items[key]) else None)
    {
      if fails {
        r := Failure(StorageError);
      } else if key in items {
        r := Success(Some(items[key]));
      } else {
        r := Success(None);
      }
    }

    /** `setItem(key, value)`: writes one entry, or rejects and writes nothing. */
    method SetItem(key: string, value: string, fails: bool) returns (ok: bool)
      modifies this
      ensures ok == !fails
      ensures items == if fails then old(items) else old(items)[key := value]
    {
      ok := !fails;
      if ok {
        items := items[key := value];
      }
    }
  }

  /** One mounted `CachedImage`. The effect has an empty dependency list, so it
      runs once per mount with the `uri` the component was mounted with. */
  class CachedImage {
    const uri: string
    var cachedSource: Option<string>
    var effectRan: bool

    /** Until the effect has run, nothing is shown. */
    ghost predicate Valid()
      reads this
    {
      !effectRan ==> cachedSource == None
    }

    constructor Mount(uri: string)
      ensures Valid()
      ensures this.uri == uri && cachedSource == None && !effectRan
    {
      this.uri := uri;
      cachedSource := None;
      effectRan := false;
    }

    /** The mount-time effect: getItem, then on a miss download, setItem and
        only then set the source; a rejection at any step ends it. */
    method RunEffect(store: Store, env: Environment)
      requires Valid() && !effectRan
      modifies this, store
      ensures Valid() && effectRan
      ensures Resolution(store.items, cachedSource) == Resolve(old(store.items), uri, env)
    {
      effectRan := true;
      var read := store.GetItem(uri, env.readFails);
      if read.Failure? {
        return;
      }
      if read.value.Some? && read.value.value != "" {
        cachedSource := Some(read.value.value);
        return;
      }
      if env.download.DownloadFailed? {
        return;
      }
      var dataUrl := env.download.dataUrl;
      var written := store.SetItem(uri, dataUrl, env.writeFails);
      if !written {
        return;
      }
      cachedSource := Some(dataUrl);
    }
  }

  /** Two images with the same `uri` mounted one after the other: after the
      first shows a data URL, the second shows the same string without a
      download, whatever its environment offers. */
  method RemountIsServedFromStore(store: Store, uri: string, first: Environment, second: Environment)
      returns (a: CachedImage, b: CachedImage)
    requires !first.readFails && first.download.Downloaded? && first.download.dataUrl != ""
    requires !first.writeFails && !second.readFails
    modifies store
    ensures a.cachedSource == Some(first.download.dataUrl) || (IsHit(old(store.items), uri) && a.cachedSource == Some(old(store.items)[uri]))
    ensures b.cachedSource == a.cachedSource
    ensures store.items == old(store.items)[uri := a.cachedSource.value]
  {
    a := new CachedImage.Mount(uri);
    a.RunEffect(store, first);
    b := new CachedImage.Mount(uri);
    b.RunEffect(store, second);
    LaterResolutionsHit(old(store.items), uri, first, second);
  }
}
