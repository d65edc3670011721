/** The parts of Spotify's JSON responses the modelled code reads, already
    parsed. A field the code indexes is a field of the record; a value that can
    be JSON `null` is an `Option`. */
module Catalog {

  /** An entry of a track's `artists` list. */
  datatype ArtistRef = ArtistRef(name: string, id: string)

  /** A track object: `id`, `name`, `popularity`, `artists`, `album.name`. */
  datatype Track = Track(id: string, name: string, popularity: int, artists: seq<ArtistRef>, album: string)

  /** A full artist object from a search: `name`, `id`, `popularity`, `genres`. */
  datatype Artist = Artist(name: string, id: string, popularity: int, genres: seq<string>)
}
