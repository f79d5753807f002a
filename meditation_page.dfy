/**
 * The meditation player: a fixed playlist with wrap-around previous/next
 * buttons, auto-advance when a track ends, and a mute switch over the
 * volume slider.
 */
module MeditationPage {
  /** The playlist's track titles; the player only needs how many there are. */
  const Tracks: seq<string> := [
    "Forest Serenity", "Jungle Awakening", "Nature's Harmony",
    "Wetland Whispers", "Spring Forest Dreams", "Woodland Meditation"]

  /** The previous-track button's index: one back, wrapping from the first to the last. */
  function Previous(i: int): (r: int)
    requires 0 <= i < |Tracks|
    ensures 0 <= r < |Tracks|
    ensures r == (i - 1) % |Tracks|
  {
    if i > 0 then i - 1 else |Tracks| - 1
  }

  /** The next-track button's index: one on, wrapping from the last to the first. */
  function Next(i: int): (r: int)
    requires 0 <= i < |Tracks|
    ensures 0 <= r < |Tracks|
    ensures r == (i + 1) % |Tracks|
  {
    if i < |Tracks| - 1 then i + 1 else 0
  }

  /** Previous undoes next. */
  lemma PreviousAfterNext(i: int)
    requires 0 <= i < |Tracks|
    ensures Previous(Next(i)) == i
  {
  }

  /** Next undoes previous. */
  lemma NextAfterPrevious(i: int)
    requires 0 <= i < |Tracks|
    ensures Next(Previous(i)) == i
  {
  }

  /** Pressing next `k` times from track `i` lands on track (i + k) mod the playlist length. */
  lemma {:induction false} NextTimes(i: int, k: nat)
    requires 0 <= i < |Tracks|
    ensures NextIterate(i, k) == (i + k) % |Tracks|
    decreases k
  {
    if k > 0 {
      NextTimes(i, k - 1);
      var j := NextIterate(i, k - 1);
      assert j == (i + k - 1) % |Tracks|;
      assert Next(j) == (j + 1) % |Tracks|;
      ModSucc(i + k - 1);
    }
  }

  /** `Next` applied `k` times. */
  function NextIterate(i: int, k: nat): (r: int)
    requires 0 <= i < |Tracks|
    ensures 0 <= r < |Tracks|
    decreases k
  {
    if k == 0 then i else Next(NextIterate(i, k - 1))
  }

  /** Taking the remainder first does not change the remainder of the successor. */
  lemma ModSucc(n: nat)
    ensures (n % |Tracks| + 1) % |Tracks| == (n + 1) % |Tracks|
  {
  }

  /** The track after the current one ends: the next one, or the same one if it was the last. */
  function AfterEnded(i: int): (r: int)
    requires 0 <= i < |Tracks|
    ensures 0 <= r < |Tracks|
    ensures r == if i + 1 < |Tracks| then i + 1 else |Tracks| - 1
  {
    if i < |Tracks| - 1 then i + 1 else i
  }

  /** `AfterEnded` applied `k` times. */
  function EndedIterate(i: int, k: nat): (r: int)
    requires 0 <= i < |Tracks|
    ensures 0 <= r < |Tracks|
    decreases k
  {
    if k == 0 then i else AfterEnded(EndedIterate(i, k - 1))
  }

  /** Auto-advance walks down the playlist and stops at the last track: `k` endings from `i` reach min(i + k, last). */
  lemma {:induction false} EndedTimes(i: int, k: nat)
    requires 0 <= i < |Tracks|
    ensures EndedIterate(i, k) == if i + k < |Tracks| then i + k else |Tracks| - 1
    decreases k
  {
    if k > 0 {
      EndedTimes(i, k - 1);
    }
  }

  /** The volume the audio element gets: silent while muted, the slider value otherwise. */
  function EffectiveVolume(volume: real, muted: bool): (v: real)
    ensures muted ==> v == 0.0
    ensures !muted ==> v == volume
    ensures 0.0 <= volume <= 1.0 ==> 0.0 <= v <= volume
  {
    if muted then 0.0 else volume
  }

  /** A snapshot of the player's state fields. */
  datatype Player = Player(currentTrack: int, isPlaying: bool, progress: real, volume: real, isMuted: bool)

  /** The player as it mounts: the first track, stopped, at volume 0.7, not muted. */
  const Start := Player(0, false, 0.0, 0.7, false)

  /** The shape every reachable state keeps: a track that exists and a slider value within 0..1. */
  predicate Valid(p: Player) {
    0 <= p.currentTrack < |Tracks| && 0.0 <= p.volume <= 1.0
  }

  /** `selectTrack(index)`: load a track from the top, stopped. */
  function Select(p: Player, index: int): (r: Player)
    requires 0 <= index < |Tracks|
    ensures r.currentTrack == index && r.progress == 0.0 && !r.isPlaying
    ensures r.volume == p.volume && r.isMuted == p.isMuted
  {
    p.(currentTrack := index, progress := 0.0, isPlaying := false)
  }

  /** `handleEnded`: playback stops, progress rewinds, and the playlist advances unless at its end. */
  function Ended(p: Player): (r: Player)
    requires 0 <= p.currentTrack < |Tracks|
    ensures !r.isPlaying && r.progress == 0.0
    ensures r.currentTrack == AfterEnded(p.currentTrack)
    ensures r.volume == p.volume && r.isMuted == p.isMuted
  {
    var r := p.(isPlaying := false, progress := 0.0);
    if p.currentTrack < |Tracks| - 1 then r.(currentTrack := p.currentTrack + 1) else r
  }

  /** `toggleMute`. */
  function MuteToggled(p: Player): (r: Player)
    ensures r.isMuted != p.isMuted
    ensures r.(isMuted := p.isMuted) == p
  {
    p.(isMuted := !p.isMuted)
  }

  /** `togglePlay`: the play/pause button flips the playing flag. */
  function PlayToggled(p: Player): (r: Player)
    ensures r.isPlaying != p.isPlaying
    ensures r.(isPlaying := p.isPlaying) == p
  {
    p.(isPlaying := !p.isPlaying)
  }

  /** Muting twice restores the state, and so the volume heard. */
  lemma MuteTwice(p: Player)
    ensures MuteToggled(MuteToggled(p)) == p
    ensures EffectiveVolume(MuteToggled(MuteToggled(p)).volume, MuteToggled(MuteToggled(p)).isMuted)
         == EffectiveVolume(p.volume, p.isMuted)
  {
  }

  /** Every handler keeps the shape. */
  lemma HandlersValid(p: Player, index: int)
    requires Valid(p) && 0 <= index < |Tracks|
    ensures Valid(Select(p, index)) && Valid(Ended(p))
    ensures Valid(MuteToggled(p)) && Valid(PlayToggled(p))
    ensures Valid(Select(p, Previous(p.currentTrack))) && Valid(Select(p, Next(p.currentTrack)))
  {
  }

  /** The player's state, updated in place by its handlers. */
  class MeditationPlayer {
    var currentTrack: int
    var isPlaying: bool
    var progress: real
    var volume: real
    var isMuted: bool

    function View(): Player
      reads this
    {
      Player(currentTrack, isPlaying, progress, volume, isMuted)
    }

    constructor()
      ensures View() == Start && Valid(View())
    {
      currentTrack := 0;
      isPlaying := false;
      progress := 0.0;
      volume := 0.7;
      isMuted := false;
    }

    method SelectTrack(index: int)
      requires Valid(View()) && 0 <= index < |Tracks|
      modifies this
      ensures View() == Select(old(View()), index) && Valid(View())
    {
      currentTrack := index;
      progress := 0.0;
      isPlaying := false;
    }

    /** The previous-track button. */
    method PreviousTrack()
      requires Valid(View())
      modifies this
      ensures View() == Select(old(View()), Previous(old(currentTrack))) && Valid(View())
    {
      SelectTrack(if currentTrack > 0 then currentTrack - 1 else |Tracks| - 1);
    }

    /** The next-track button. */
    method NextTrack()
      requires Valid(View())
      modifies this
      ensures View() == Select(old(View()), Next(old(currentTrack))) && Valid(View())
    {
      SelectTrack(if currentTrack < |Tracks| - 1 then currentTrack + 1 else 0);
    }

    /** The audio element's `ended` event. */
    method HandleEnded()
      requires Valid(View())
      modifies this
      ensures View() == Ended(old(View())) && Valid(View())
    {
      isPlaying := false;
      progress := 0.0;
      if currentTrack < |Tracks| - 1 {
        currentTrack := currentTrack + 1;
      }
    }

    method ToggleMute()
      requires Valid(View())
      modifies this
      ensures View() == MuteToggled(old(View())) && Valid(View())
    {
      isMuted := !isMuted;
    }

    method TogglePlay()
      requires Valid(View())
      modifies this
      ensures View() == PlayToggled(old(View())) && Valid(View())
    {
      isPlaying := !isPlaying;
    }

    /** The volume slider, which offers values in 0..1. */
    method SetVolume(v: real)
      requires Valid(View()) && 0.0 <= v <= 1.0
      modifies this
      ensures View() == old(View()).(volume := v) && Valid(View())
    {
      volume := v;
    }
  }
}
