/** Opening and releasing files: the reference counts of the entities, and the flag that lets
    one sound file be open at a time. */
module OpenFiles {

  datatype File = Sound(id: nat) | Other(id: nat)

  class OpenTable {
    /** music_playing */
    var musicPlaying: bool
    /** The reference counts of the file entities. */
    var refs: map<File, nat>
    /** The handles that are open. */
    ghost var handles: multiset<File>

    /** Each count is the number of open handles. */
    ghost predicate Counts()
      reads this
    {
      forall f {:trigger handles[f]} :: handles[f] == if f in refs then refs[f] else 0
    }

    /** At most one handle of a sound file is open, and the flag says whether one is. */
    ghost predicate OneSound()
      reads this
    {
      && (forall f :: f in handles && f.Sound? ==> musicPlaying && handles[f] == 1)
      && (forall f, g :: f in handles && g in handles && f.Sound? && g.Sound? ==> f == g)
      && (musicPlaying ==> exists f :: f in handles && f.Sound?)
    }

    ghost predicate Valid()
      reads this
    {
      Counts() && OneSound()
    }

    constructor ()
      ensures Valid() && handles == multiset{}
    {
      musicPlaying, refs, handles := false, map[], multiset{};
    }

    /** wav_open: false is -EBUSY. */
    method OpenSound() returns (ok: bool)
      modifies this`musicPlaying
      ensures ok == !old(musicPlaying) && musicPlaying
    {
      if musicPlaying {
        return false;
      }
      musicPlaying := true;
      return true;
    }

    /** spfs_open: refused exactly for a sound file while some sound file is open. */
    method Open(f: File) returns (ok: bool)
      requires Valid()
      modifies this
      ensures Valid()
      ensures ok <==> !(f.Sound? && exists g :: g in old(handles) && g.Sound?)
      ensures handles == if ok then old(handles) + multiset{f} else old(handles)
    {
      ok := true;
      if f.Sound? {
        ok := OpenSound();
      }
      if ok {
        refs := refs[f := (if f in refs then refs[f] else 0) + 1];
        handles := handles + multiset{f};
      }
    }

    /** wav_release */
    method ReleaseSound()
      modifies this`musicPlaying
      ensures !musicPlaying
    {
      musicPlaying := false;
    }

    /** spfs_release of an open handle. */
    method Release(f: File)
      requires Valid() && f in handles
      modifies this
      ensures Valid() && handles == old(handles) - multiset{f}
    {
      assert handles[f] > 0;
      if f.Sound? {
        ReleaseSound();
      }
      refs := refs[f := refs[f] - 1];
      handles := handles - multiset{f};
    }
  }
}
