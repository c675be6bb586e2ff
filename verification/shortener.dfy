/** The store logic of urlShortner/main.go: URL validation, the bounded
    retry loop that draws six-letter keys, the shorten path that normalises
    and stores a URL, and the redirect lookup. `url.Parse`, the DNS lookup
    and the random generator are parameters; the store is a plain map. */
module UrlShortener {
  import opened Wrappers

  /** What `url.Parse` reports of a URL: its scheme and its host. */
  datatype Url = Url(scheme: string, host: string)

  /** `url.Parse`: None where it returns an error. */
  type UrlParser = string -> Option<Url>

  /** The alphabet `letters` that keys are drawn from. */
  const LETTERS: string := "abcdefghijklmnopqrstuvwxyzABCDEFGHIJKLMNOPQRSTUVWXYZ0123456789"
  const KEY_LENGTH := 6
  const MAX_ATTEMPTS := 100
  const HTTP_PREFIX := "http://"
  const SHORT_URL_BASE := "http://localhost:8080/"

  /** A result of `randGen.Intn(len(letters))`. */
  type LetterIndex = i: int | 0 <= i < 62

  /** The sequence of random draws: the `k`-th call of `Intn` returns `draw(k)`. */
  type Draws = nat -> LetterIndex

  /** A well-formed key: six characters of the alphabet. */
  predicate IsKey(key: string)
  {
    |key| == KEY_LENGTH && forall i :: 0 <= i < |key| ==> key[i] in LETTERS
  }

  // ---------------------------------------------------------------------
  // isValidURL

  /** `isValidURL`: the input parses, has a scheme and a host, and the scheme
      is "http" or "https". */
  function IsValidUrl(parse: UrlParser, input: string): (valid: bool)
    ensures valid <==> parse(input).Some? && parse(input).value.host != "" &&
                       (parse(input).value.scheme == "http" || parse(input).value.scheme == "https")
  {
    match parse(input)
    case None => false
    case Some(u) =>
      if u.scheme == "" || u.host == "" then false
      else if u.scheme != "http" && u.scheme != "https" then false
      else true
  }

  /** The validation step of `shortenURLHandler`: a valid URL is kept, one
      that becomes valid with "http://" in front gets that prefix, and any
      other is rejected (None). Whatever is kept is valid. */
  function NormalizedUrl(parse: UrlParser, input: string): (r: Option<string>)
    ensures r.Some? ==> IsValidUrl(parse, r.value)
    ensures r.Some? ==> r.value == input || r.value == HTTP_PREFIX + input
    ensures r.None? <==> !IsValidUrl(parse, input) && !IsValidUrl(parse, HTTP_PREFIX + input)
    ensures IsValidUrl(parse, input) ==> r == Some(input)
  {
    if IsValidUrl(parse, input) then Some(input)
    else if IsValidUrl(parse, HTTP_PREFIX + input) then Some(HTTP_PREFIX + input)
    else None
  }

  /** `checkHostResolvable`: the input parses and its host resolves
      (`resolves` stands for `net.LookupHost` succeeding). */
  function HostResolvable(parse: UrlParser, resolves: string -> bool, input: string): (ok: bool)
    ensures ok <==> parse(input).Some? && resolves(parse(input).value.host)
  {
    match parse(input)
    case None => false
    case Some(u) => resolves(u.host)
  }

  // ---------------------------------------------------------------------
  // generateShortURL

  /** The key built in attempt `attempt` (counting from 0): six letters
      picked by the next six draws. */
  function Candidate(draw: Draws, attempt: nat): (key: string)
    ensures IsKey(key)
  {
    seq(KEY_LENGTH, i requires 0 <= i < KEY_LENGTH => LETTERS[draw(KEY_LENGTH * attempt + i)])
  }

  /** Every attempt from `from` up to (not including) `to` draws a key that
      is already in the store. */
  predicate AllCollide(store: map<string, string>, draw: Draws, from: nat, to: nat)
  {
    forall a :: from <= a < to ==> Candidate(draw, a) in store
  }

  /** What the retry loop returns when it reaches attempt `attempt`: the
      first candidate from there on that is not a key of `store`, or "" when
      all of the remaining attempts collide. */
  function FirstFreeKey(store: map<string, string>, draw: Draws, attempt: nat): (key: string)
    decreases MAX_ATTEMPTS - attempt
    ensures key == "" || (IsKey(key) && key !in store)
    ensures key == "" <==> forall a :: attempt <= a < MAX_ATTEMPTS ==> Candidate(draw, a) in store
    ensures key != "" ==> exists a :: attempt <= a < MAX_ATTEMPTS && Candidate(draw, a) == key
  {
    if attempt >= MAX_ATTEMPTS then ""
    else if Candidate(draw, attempt) !in store then Candidate(draw, attempt)
    else FirstFreeKey(store, draw, attempt + 1)
  }

  /** The retry loop stops at the first free attempt: when attempt `a` draws
      a fresh key and every attempt before it collided, that key is the result. */
  lemma {:induction false} FirstFreeKeyIsFirst(store: map<string, string>, draw: Draws, attempt: nat, a: nat)
    requires attempt <= a < MAX_ATTEMPTS
    requires Candidate(draw, a) !in store && AllCollide(store, draw, attempt, a)
    ensures FirstFreeKey(store, draw, attempt) == Candidate(draw, a)
    decreases a - attempt
  {
    if attempt < a {
      assert Candidate(draw, attempt) in store;
      FirstFreeKeyIsFirst(store, draw, attempt + 1, a);
    }
  }

  // ---------------------------------------------------------------------
  // shortenURLHandler and redirectHandler

  /** The answers of `shortenURLHandler`: the four 400 errors, the 500 error,
      and success with the new key (the body is `{"short_url": ShortUrl()}`). */
  datatype ShortenResponse =
    | InvalidRequest
    | UrlRequired
    | InvalidUrl
    | UnresolvableHost
    | GenerationFailed
    | Shortened(key: string)
  {
    /** The `short_url` value of the JSON answer to a successful request. */
    function ShortUrl(): string
      requires Shortened?
    {
      SHORT_URL_BASE + key
    }
  }

  /** The answers of `redirectHandler`: a 302 redirect to the stored URL, or 404. */
  datatype RedirectResponse = Found(location: string) | NotFound

  /** The shorten path on a store: the answer and the store afterwards.
      `body` is the decoded request URL, None when the JSON does not decode. */
  function Shorten(store: map<string, string>, parse: UrlParser, resolves: string -> bool,
                   draw: Draws, body: Option<string>): (r: (ShortenResponse, map<string, string>))
    ensures !r.0.Shortened? ==> r.1 == store
    ensures body.None? ==> r.0 == InvalidRequest
    ensures body == Some("") ==> r.0 == UrlRequired
    ensures body.Some? && body.value != "" && NormalizedUrl(parse, body.value).Some? ==>
              var long := NormalizedUrl(parse, body.value).value;
              (r.0 == UnresolvableHost <==> !HostResolvable(parse, resolves, long)) &&
              (HostResolvable(parse, resolves, long) ==>
                 r.0 == if FirstFreeKey(store, draw, 0) == "" then GenerationFailed
                        else Shortened(FirstFreeKey(store, draw, 0)))
    ensures body.Some? && body.value != "" && NormalizedUrl(parse, body.value).None? ==> r.0 == InvalidUrl
    ensures r.0.Shortened? ==> body.Some? && NormalizedUrl(parse, body.value).Some?
    ensures r.0.Shortened? ==>
              IsKey(r.0.key) && r.0.key !in store &&
              r.1 == store[r.0.key := NormalizedUrl(parse, body.value).value]
    ensures r.0 == GenerationFailed ==> forall a :: 0 <= a < MAX_ATTEMPTS ==> Candidate(draw, a) in store
  {
    match body
    case None => (InvalidRequest, store)
    case Some(url) =>
      if url == "" then (UrlRequired, store)
      else match NormalizedUrl(parse, url)
        case None => (InvalidUrl, store)
        case Some(long) =>
          if !HostResolvable(parse, resolves, long) then (UnresolvableHost, store)
          else
            var key := FirstFreeKey(store, draw, 0);
            if key == "" then (GenerationFailed, store)
            else (Shortened(key), store[key := long])
  }

  /** The redirect lookup: the request path without its leading "/" is the
      key. Slicing `Path[1:]` needs a non-empty path. */
  function Lookup(store: map<string, string>, path: string): (r: RedirectResponse)
    requires |path| >= 1
    ensures r.Found? <==> path[1..] in store
    ensures r.Found? ==> r.location == store[path[1..]]
  {
    if path[1..] in store then Found(store[path[1..]]) else NotFound
  }

  /** Shortening and then following the short URL leads to the stored
      (normalised) URL, and every key stored before still leads where it did. */
  lemma ShortenThenRedirect(store: map<string, string>, parse: UrlParser, resolves: string -> bool,
                            draw: Draws, url: string, path: string)
    requires Shorten(store, parse, resolves, draw, Some(url)).0.Shortened?
    requires |path| >= 1
    ensures var (resp, after) := Shorten(store, parse, resolves, draw, Some(url));
            Lookup(after, "/" + resp.key) == Found(NormalizedUrl(parse, url).value) &&
            (path[1..] in store ==> Lookup(after, path) == Lookup(store, path))
  {
    var (resp, after) := Shorten(store, parse, resolves, draw, Some(url));
    assert ("/" + resp.key)[1..] == resp.key;
  }

  /** The process-wide `store`, loaded from disk at start-up. */
  class Store {
    var store: map<string, string>

    /** `init`/`loadStore`: the map read from the store file (empty when
        there is none). */
    constructor (loaded: map<string, string>)
      ensures store == loaded
    {
      store := loaded;
    }

    /** `generateShortURL`: up to 100 attempts, each filling a six-letter
        buffer from the random draws; the first key that is not in the store
        is returned, "" when every attempt collides. */
    method GenerateShortUrl(draw: Draws) returns (key: string)
      ensures key == FirstFreeKey(store, draw, 0)
      ensures key == "" || (IsKey(key) && key !in store)
      ensures key == "" <==> forall a :: 0 <= a < MAX_ATTEMPTS ==> Candidate(draw, a) in store
    {
      var attempts := 0;
      while true
        invariant 0 <= attempts <= MAX_ATTEMPTS
        invariant FirstFreeKey(store, draw, attempts) == FirstFreeKey(store, draw, 0)
        decreases MAX_ATTEMPTS - attempts
      {
        attempts := attempts + 1;
        if attempts > MAX_ATTEMPTS {
          return "";
        }
        var b := new char[KEY_LENGTH];
        for i := 0 to KEY_LENGTH
          invariant forall j :: 0 <= j < i ==> b[j] == LETTERS[draw(KEY_LENGTH * (attempts - 1) + j)]
        {
          b[i] := LETTERS[draw(KEY_LENGTH * (attempts - 1) + i)];
        }
        key := b[..];
        assert key == Candidate(draw, attempts - 1);
        if key !in store {
          break;
        }
      }
    }

    /** `shortenURLHandler`, without the JSON encoding of the answer and the
        write of the store file. */
    method ShortenUrl(parse: UrlParser, resolves: string -> bool, draw: Draws, body: Option<string>)
      returns (resp: ShortenResponse)
      modifies this
      ensures (resp, store) == Shorten(old(store), parse, resolves, draw, body)
    {
      if body.None? {
        return InvalidRequest;
      }
      var url := body.value;
      if url == "" {
        return UrlRequired;
      }
      if !IsValidUrl(parse, url) {
        if !IsValidUrl(parse, HTTP_PREFIX + url) {
          return InvalidUrl;
        }
        url := HTTP_PREFIX + url;
      }
      if !HostResolvable(parse, resolves, url) {
        return UnresolvableHost;
      }
      var key := GenerateShortUrl(draw);
      if key == "" {
        return GenerationFailed;
      }
      store := store[key := url];
      resp := Shortened(key);
    }

    /** `redirectHandler`: look the key up; the store is only read. */
    method Redirect(path: string) returns (resp: RedirectResponse)
      requires |path| >= 1
      ensures resp == Lookup(store, path)
    {
      var key := path[1..];
      if key !in store {
        return NotFound;
      }
      resp := Found(store[key]);
    }
  }
}
