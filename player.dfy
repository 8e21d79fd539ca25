/**
 * The `Music` record of src/lib/data/music.ts and the part of the music service
 * (src/_services/musicService.ts) that the track list drives: the current track,
 * the source of the audio element and the playing flag. The Web Audio graph is
 * not part of this model.
 */
module Player {
  import opened Base

  /**
   * A track. Pages compare tracks with `!==`, which compares references, so a
   * track is an object and two records with equal fields are still two tracks.
   */
  class Music {
    const name: string
    const author: Option<string>
    const cover: Option<string>
    const audio: string
    const description: Option<string>
    const rating: Option<real>
    const uid: string
    const musicId: Option<string>
    const tags: seq<string>
    /** `uploadDate` as milliseconds since the epoch. */
    const uploadDate: int

    constructor (name: string, author: Option<string>, cover: Option<string>, audio: string,
                 description: Option<string>, rating: Option<real>, uid: string,
                 musicId: Option<string>, tags: seq<string>, uploadDate: int)
      ensures this.name == name && this.author == author && this.cover == cover
      ensures this.audio == audio && this.description == description && this.rating == rating
      ensures this.uid == uid && this.musicId == musicId && this.tags == tags
      ensures this.uploadDate == uploadDate
    {
      this.name := name;
      this.author := author;
      this.cover := cover;
      this.audio := audio;
      this.description := description;
      this.rating := rating;
      this.uid := uid;
      this.musicId := musicId;
      this.tags := tags;
      this.uploadDate := uploadDate;
    }
  }

  /** The file the audio element is created with. */
  const DefaultSource: string := "Digital Dreams.mp3"

  class MusicService {
    /** `_music`; `null` until a track is first assigned. */
    var music: Music?
    /** `audio.src`. */
    var src: string
    var isPlaying: bool

    constructor ()
      ensures music == null && src == DefaultSource && !isPlaying
    {
      music := null;
      src := DefaultSource;
      isPlaying := false;
    }

    /** `play()`: the element and the audio context resume. */
    method Play()
      modifies this`isPlaying
      ensures isPlaying
    {
      isPlaying := true;
    }

    /** `pause()`. */
    method Pause()
      modifies this`isPlaying
      ensures !isPlaying
    {
      isPlaying := false;
    }

    /** The `music` setter: the element loads the track's audio, then plays. */
    method SetMusic(m: Music)
      modifies this`music, this`src, this`isPlaying
      ensures music == m && src == m.audio && isPlaying
    {
      src := m.audio;
      music := m;
      Play();
    }

    /** The `src` setter: loads a file without changing the current track, then plays. */
    method SetSrc(s: string)
      modifies this`src, this`isPlaying
      ensures src == s && isPlaying
    {
      src := s;
      Play();
    }
  }
}
