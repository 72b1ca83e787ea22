# Spotifile, modelled and proved in Dafny

Spotifile is a FUSE file system that shows Spotify as directories, symbolic links and sound
files. This project models three parts of it and proves what they keep, for every input, every
run and every interleaving.

**The namespace.** A mutable tree of entities with parent pointers and name-keyed children grows
as directories are read, searches are made and searches complete. Links are strings, computed
with `relpath` from the full paths of two entities. `Entities` is one moment of the tree as a
value; `EntityTrees.EntityTree` is the linked structure, with a ghost copy of that value;
`Places.Inv` is the invariant; `Namespace.Filesystem` handles events. The main result,
`Namespace.Filesystem.Run`, is about any run of events: each event does to the tree and the
searches exactly its own step, chosen by what its path finds; and afterwards every attached link
resolves, from the directory that holds it, to exactly the browse directory or the sound file of
the URI it was made for, and every link that was there before is unchanged and still leads where it
led. `Namespace.LinkFollowed` is what a user of the mount sees of it, and `Sessions` follows users
from the initial file system on, by paths and link texts alone. The proof goes through name
sanitizing (`Names`), path printing and splitting, the common-prefix loop and the count of `..`
(`Paths`), lookup and full paths (`Entities`), growth (`Growth`), and the sites of links and goals
(`Links`, `Sites`).

**The audio pipeline.** `Audio` and `AudioRuns` say on values what one critical section does to
the queue, and prove over every interleaving of deliveries, flushes and reads when the byte stream
is exact. `PlaybackState` has the queue of buffers that are shortened in place and proves its
methods equal to these values. `WavRuns` is `wav_read` with the callbacks that arrive between its
critical sections, the end of a track among them, and a log of what the reader has heard, was told
and has lost. `WavSections` proves that every section keeps the log right, `WavInOrder` proves whole
runs of reads up to the end of the track and after it, `WavAnswers` says what each call answers and
when it waits, by what there is to see whenever the reader gets the lock, and `WavFile` is the same
reader over a real buffer and a real `expoff`. `WavHeader` is the header of the file and a reader of
such headers, at fixed places. `Wakeups` is the mutex and the condition variable, step by step.

**Playlist documents.** `XspfSanitize` has the staged replacement loops, `XspfRoundTrip` says
exactly when they are a character map that can be read back, `Xspf` is the builder, `XspfParse` a
parser that spells the tags itself, `UriEscape` the escaping of locations, and `XspfTracks` the round
trip of lists of tracks.

Strings are sequences of bytes, one `char` per byte. What libspotify answers (names, link strings,
tracks, durations, whether a track loads) and when its threads run are parameters. A method that
models a waiting call returns `None` when it is still waiting after every callback it was given
has come.

Some claims hold only under a condition, and are proved together with it:

- `relpath` leads to its goal if and only if neither path is a proper ancestor of the other below
  the root (`Paths.RelativePathLeads`). No call in the tree is for such a pair (`Sites.TextLeads`).
- Looking up an entity's full path gives its parent instead if the two have the same name
  (`Entities.FindFullPath`); `Sessions.TrackNamedLikePlaylist` makes such a link.
- A partial read keeps the stream exact if and only if it does not split a sample
  (`Audio.ReadConserves`, `AudioRuns.RunExact`); `AudioRuns.SplitRunDoubles` is a run that does.
- Reads that are continued after the end of a track reach all audio that was accepted if and only
  if none was queued when the end of the track flushed (`WavSections.EndLosesQueue`,
  `WavInOrder.EndDecides`).
- The sanitizer is an escape map, and its text can be read back, if and only if the text has at
  most one `&` and no `!amp;` (`XspfRoundTrip.SanitizedIsEscapeMap`, `XspfRoundTrip.SanitizedRoundTrip`;
  `XspfRoundTrip.TwoAmpersands` and `XspfRoundTrip.BangBecomesAmpersand` are the two ways to fail).
- The header announces the format of the audio, if its numbers fit their fields, but a size of the data
  that is eight bytes short of the audio that its size of the file counts (`WavHeader.HeaderAnnounces`).
- A read of audio comes back empty only if a check turned the reader away, or no track played and the
  queue was empty when the reader gave up (`WavAnswers.EmptyIsTheEnd`).
- A wake-up is lost if and only if the end of a track clears the current track while the reader
  waits for audio (`Wakeups.RunSound`); `Wakeups.EndOfTrackLosesWakeup` is such a run.
- The reader hangs, without a track and without a signal to come, if and only if a track is cleared
  at its end under it, or it enters the wait for the format without a track (`Wakeups.RunHangs`);
  `Wakeups.TokenLossHangs` is a run of the second kind.

The README of the repository shows links in `/playlists/meta` that start with `../../`; the code
computes `../../../` for a directory of that depth, and the model follows the code.

## Model

| member | source | states |
|---|---|---|
| `CStrings.StrReplaceBuffer` | src/string_utils.c:5-22 | the buffer, as long as source and replacement together, is never written past its end and holds the string with its first occurrence replaced, terminated |
| `CStrings.ReplaceEachIsSubst` | src/xspf_sanitize.c:6-15 | replacing first occurrences until none is left is one pass from left to right, if the replacement brings no key back |
| `Names.ReplaceSlashes` | src/spfs_fuse_utils.c:5-16 | for any slash-free replacement the loop ends and maps every slash, and only slashes; no slash is left |
| `UriEscape.SlashLookalike` | src/spfs_fuse_utils.h:4 | the bytes that take the place of a slash are the UTF-8 encoding of U+2215, DIVISION SLASH |
| `Names.SanitizeNameSpec` | src/spfs_fuse_utils.c:18-22 | sanitized names have no slash and no surrounding space, are exactly the names sanitizing leaves alone, and sanitizing twice is sanitizing once |
| `Names.SanitizeTakesSpaces` | src/spfs_fuse_utils.c:18-22 | the name with its slashes mapped is spaces, the sanitized name, and spaces again, for every name; and the sanitized name has no space at its ends |
| `Names.SanitizeDetermined` | src/spfs_fuse_utils.c:18-22 | the other way: whatever has no space at its ends and, put between spaces, gives the mapped name, is the sanitized name |
| `Names.Sanitize` | src/spfs_fuse_utils.c:18-22 | the loop and the strip compute the name so determined |
| `Numbers.PrintedValue` | src/xspf.c:88-92 | a number printed with %d reads back, negative ones included |
| `Numbers.PaddedPrefix` | src/spfs_fuse_playlist.c:88 | two zero-padded numbers followed by something that is no digit are equal texts only for equal numbers |
| `Numbers.PaddedShape` | src/spfs_fuse_playlist.c:88 | a position is printed with two digits at least, and starts with a zero exactly below ten |
| `Paths.CommonPrefix` | src/spfs_path.c:5-29 | 0 unless both paths are absolute; else the largest length up to which both agree and which follows a slash or is where each path ends or goes on with a slash |
| `Paths.CommonPrefixSymmetric` | src/spfs_path.c:5-29 | swapping the two paths does not change it |
| `Paths.RelativePath` | src/spfs_path.c:31-62 | the result as a function of both paths; NULL exactly if one of them is not absolute |
| `Paths.RelativePathShape` | src/spfs_path.c:38-60 | for unrelated paths: one `..` for each component of the first past the common ones, and then the rest of the second |
| `Paths.RelativePathLeads` | src/spfs_path.c:31-62 | for canonical absolute paths the result, read at the first, yields the second if and only if neither is a proper ancestor of the other below the root |
| `Paths.DescendingShape` | src/spfs_path.c:55-58 | from a directory down into its own subtree the result is an absolute path of the remaining components |
| `Paths.AscendingShape` | src/spfs_path.c:42-49 | from a subtree up to an ancestor below the root the result has one `..` too many |
| `Entities.PathsInjective` | src/spfs_fuse_entity.c:65-78 | in a well-formed tree different attached entities have different paths |
| `Entities.FindFullPath` | src/spfs_fuse_entity.c:7-82 | the root or an attached entity whose path fits PATH_MAX is found by its full path, except that the parent is found if it has the same name |
| `Entities.FindOnlySlashes` | src/spfs_fuse_entity.c:22-48 | two or more slashes and nothing else find nothing from the root |
| `Entities.WalkIsDescend` | src/spfs_fuse_entity.c:36-42 | from any entity and for any components the lookup is a plain walk, with the one exception of a last component that is the own name of the entity reached; it finds nothing where the walk to the parent finds nothing |
| `Entities.FindExactly` | src/spfs_fuse_entity.c:7-51 | what the lookup of any canonical path finds, whether or not something is there |
| `Entities.RelpathResolves` | src/spfs_fuse_entity.c:84-95 | between unrelated attached entities with fitting paths the text resolves in the tree, `..` by parent and names by children, from the one to the other |
| `Entities.ResolveIsReadLink` | src/spfs_fuse_entity.c:84-95 | where a text leads in the tree, its path is what reading the text at the path of the directory gives |
| `Growth.AttachKeepsForest` | src/spfs_fuse_entity.c:131-144 | attaching the top of one tree to a directory of another keeps parent pointers and child maps in agreement, without cycles, with clean and unique names |
| `Growth.AttachKeepsForestIff` | src/spfs_fuse_entity.c:131-144 | an accepted child that is not the root leaves a forest if and only if it is the top of another tree: one with a parent would have two, one above the new parent would close a cycle |
| `Growth.AimKeepsForest` | src/spfs_fuse_entity.c:146-153 | giving a link its target keeps a forest |
| `Growth.AddedKeepsForest` | src/spfs_fuse_entity.c:167-180 | creating an entity keeps a forest |
| `EntityTrees.EntityTree.Create` | src/spfs_fuse_entity.c:167-180 | a new entity under its sanitized name is added, nothing else changes, the structure stays a forest |
| `EntityTrees.EntityTree.GetChild` | src/spfs_fuse_entity.c:155-161 | the child under the sanitized name, or null |
| `EntityTrees.EntityTree.AddChild` | src/spfs_fuse_entity.c:131-144 | for any two entities: the child is attached exactly if the parent is a directory, the name is not empty and not taken, otherwise nothing changes; the structure is still a forest if and only if an attached child was the top of another tree |
| `EntityTrees.EntityTree.SetTarget` | src/spfs_fuse_entity.c:146-153 | the target of a link, and nothing else, changes |
| `EntityTrees.EntityTree.FindPath` | src/spfs_fuse_entity.c:7-51 | the nested skip loops compute the walk over the non-empty components of any path string |
| `EntityTrees.EntityTree.NextElement` | src/spfs_fuse_entity.c:24-34 | the two inner loops find the next non-empty element and skip the empty ones around it, so repeated, leading and trailing slashes do not matter |
| `EntityTrees.EntityTree.FullPath` | src/spfs_fuse_entity.c:53-82 | the two loops give the names from the top down, each after a slash, cut off at PATH_MAX |
| `EntityTrees.EntityTree.Relpath` | src/spfs_fuse_entity.c:84-95 | the relative path of the two full paths; never NULL |
| `Destroying.Destroy` | src/spfs_fuse_entity.c:194-221 | ends, and frees each entity of the subtree exactly once and nothing else, the top last |
| `Places.AttachKeepsInv` | src/spfs_fuse_entity.c:131-144 | attaching an entity where it may be keeps the invariant of the namespace, all earlier links included |
| `Links.AimedLinkKeepsInv` | src/spfs_fuse_entity.c:146-153 | giving an attached link a text that leads to the browse directory or sound file of its URI, as its directory demands, keeps the invariant |
| `Sites.TextLeads` | src/spfs_fuse_track.c:97 | every relpath call of the namespace, from an attached directory to the goal of its link, gives a text that leads there, however long the names are |
| `Sites.UriDirPath` | src/spfs_fuse_track.c:122-194 | a browse directory is at /browse, its part, and its sanitized URI, and this path fits PATH_MAX |
| `InitialTrees.InitialTree` | src/spfs_fuse.c:173-249 | the tree built at the start shows exactly the names it should, at each place, /connection being a file, and satisfies the invariant of the namespace |
| `BrowseDirs.CreateTrackBrowseDir` | src/spfs_fuse_track.c:122-194 | the directory already there for the URI, the tree unchanged; or a new one with all its entries, put into /browse/tracks, where nothing else changes |
| `BrowseDirs.CreateArtistBrowseDir` | src/spfs_fuse_artist.c:89-125 | the same in /browse/artists |
| `BrowseDirs.CreateAlbumBrowseDir` | src/spfs_fuse_album.c:23-48 | the same in /browse/albums |
| `BrowseDirs.TrackDirHolds` | src/spfs_fuse_track.c:135-192 | the new directory of a track shows track.wav, the sound file of this track, artists, which lists artists, and nine attributes, and nothing else |
| `BrowseDirs.ArtistDirHolds` | src/spfs_fuse_artist.c:101-121 | that of an artist shows albums and portraits, each with its own readdir, the name and the biography, and nothing else |
| `BrowseDirs.AlbumDirHolds` | src/spfs_fuse_album.c:36-44 | that of an album shows its name and its cover, and nothing else |
| `LinkMaking.EnsureLink` | src/spfs_fuse_track.c:94-100 | under a name that is neither taken nor empty a new link is shown whose text leads to the goal; else the directory keeps its children |
| `Readdirs.MetaReaddir` | src/spfs_fuse_playlist.c:7-31 | exactly the non-empty sanitized names are shown in addition; the first track of each new name has the link, to its own browse directory; nothing changes if all are there |
| `Readdirs.ArtistsReaddir` | src/spfs_fuse_track.c:83-105 | the same for the artists of a track |
| `Readdirs.AlbumsReaddir` | src/spfs_fuse_artist.c:50-79 | the same for the albums of an artist |
| `Readdirs.ListedAgain` | src/spfs_fuse_playlist.c:13-28 | reading an unchanged list of items with non-empty names again leaves the whole tree unchanged |
| `Readdirs.ChildrenListedAgain` | src/spfs_fuse_playlist.c:13-28 | whatever the names, reading again leaves the children of the directory unchanged |
| `WavLinks.CreateWavTrackLink` | src/spfs_fuse_track.c:197-209 | unless the name is taken, a link to the sound file of the track's browse directory, which is made if it was not there |
| `WavLinks.FindWav` | src/spfs_fuse_track.c:204 | looking up track.wav in a track's browse directory finds its sound file |
| `Playlists.PlaylistsReaddir` | src/spfs_fuse_playlist.c:108-152 | a directory for each new non-empty sanitized playlist name, and nothing else |
| `Playlists.PortraitsReaddir` | src/spfs_fuse_artist.c:25-49 | the portrait names are shown, each new one as a file, and nothing else |
| `Playlists.PortraitNamesApart` | src/spfs_fuse_artist.c:32-33 | different portraits have different names, which sanitizing leaves alone |
| `Playlists.PortraitNameReads` | src/spfs_fuse_artist.c:32 | a portrait is called by its number, counted from one and without leading zeros, and .jpg |
| `MusicDirs.NumberedDistinct` | src/spfs_fuse_playlist.c:88 | the numbered names of two positions stay different through sanitizing, are never empty and never playlist.xspf, whatever the titles |
| `MusicDirs.MusicReaddir` | src/spfs_fuse_playlist.c:80-105 | the numbered names and playlist.xspf are shown in addition; the link at each new name leads to the sound file of the track at that position |
| `MusicDirs.FreshPlaylist` | src/spfs_fuse_playlist.c:80-105 | on a fresh directory, even for equal titles or titles with slashes: exactly one link for each of the n tracks, and playlist.xspf |
| `MusicDirs.PlaylistAgain` | src/spfs_fuse_playlist.c:80-105 | reading an unchanged playlist again leaves the whole tree unchanged |
| `Namespace.OneDirPerUri` | src/spfs_fuse_track.c:131-133 | in every reachable state two browse directories for the same sanitized URI are the same entity |
| `Namespace.LinkFollowed` | src/spfs_fuse_track.c:205-207 | in every reachable state, reading the text of an attached link at its directory gives the path of the browse directory or sound file of the URI it was made for, and looking that path up finds it if and only if the URI is not named like the place it is in |
| `Namespace.GrowthBreaksNoLink` | src/spfs_fuse_entity.c:131-144 | growth leaves every attached link as it is, and it still leads where it led |
| `Namespace.HitShown` | src/spfs_fuse_search.c:9-22 | a hit is shown as its artist, a dash, its title and .wav, with the slashes of the title mapped, and nothing taken away |
| `Namespace.Filesystem.constructor` | src/spfs_fuse.c:173-249 | the initial file system is valid, shows exactly what it should, and has no searches |
| `Namespace.Filesystem.ReadPath` | src/spfs_fuse.c:120-171 | ENOENT, EINVAL or the effect of the directory's own readdir, by what the path finds; the tree only grows |
| `Namespace.Filesystem.MakeDirectoryAt` | src/spfs_fuse.c:269-288 | ENOENT, EACCES, EEXIST or a new search directory, by what the parent path finds |
| `Namespace.Filesystem.SearchMkdir` | src/spfs_fuse_search.c:24-42 | EEXIST for a taken sanitized name, the tree unchanged; else a search whose directory is shown under that name |
| `Namespace.Filesystem.SearchComplete` | src/spfs_fuse_search.c:9-22 | the search directory shows the hits' names, the first hit of each with the link, to its own sound file |
| `Namespace.Filesystem.Handle` | src/spfs_fuse.c:152-171 | an event takes the tree and the searches to just what it should: a readdir by what its path finds, a mkdir by what the path of its parent finds, a completed search by its hits; no change if there is nothing to be done |
| `Namespace.Filesystem.Run` | src/spfs_fuse.c:152-171 | a run goes through a moment for each event, each made of the one before by exactly the step of its event, with its status; after it every attached link leads exactly to the browse directory or track.wav of the URI recorded for it, and every earlier link is unbroken |
| `Sessions.PlayMusic` | src/spfs_fuse_playlist.c:80-152 | from the initial file system, for any list of tracks: after looking for playlists and reading one under /playlists/music, there is for each track in its place a link whose text, read there, is the path of the sound file of this very track; and one more entry besides these |
| `Sessions.Search` | src/spfs_fuse_search.c:9-42 | after a mkdir in /search and its completion, for any hits: for the first hit of each name a link whose text, read there, is the path of its sound file |
| `Sessions.BrowseTrack` | src/spfs_fuse_playlist.c:7-31 | after reading a playlist under /playlists/meta, a link whose text is the path of the browse directory of its track |
| `Sessions.BrowseArtist` | src/spfs_fuse_track.c:83-105 | after reading artists in that directory, in whatever state, and under a name that is new there, a link whose text is the path of the browse directory of the artist |
| `Sessions.BrowseAlbum` | src/spfs_fuse_artist.c:50-79 | after reading albums in the directory of the artist, under a name that is new there, a link whose text is the path of the browse directory of the album |
| `Sessions.LookAtPortraits` | src/spfs_fuse_artist.c:25-49 | after reading portraits there, an entry under the name of each portrait |
| `Sessions.ArtistsFound` | src/spfs_fuse_track.c:187-190 | in every reachable state, looking up artists under a browsed track finds the directory with that readdir, which is that of this track |
| `Sessions.AlbumsFound` | src/spfs_fuse_artist.c:101-121 | and looking up albums or portraits under a browsed artist finds the one with its own readdir |
| `Sessions.LinkAtStays` | src/spfs_fuse_entity.c:131-144 | a link once read at a path stays there and reads the same, however the tree grows |
| `Sessions.TrackNamedLikePlaylist` | src/spfs_fuse_playlist.c:7-31 | from the initial file system, a playlist and a track of the same name make a link that its own full path does not find |
| `OpenFiles.OpenTable.Open` | src/spfs_fuse.c:78-97 | refused exactly for a sound file while one is open; counts stay the numbers of open handles and at most one sound file is open |
| `OpenFiles.OpenTable.Release` | src/spfs_fuse.c:99-107 | one handle less, and the flag is free exactly when no sound file is open |
| `Audio.YieldAmount` | src/spfs_spotify.c:455-483 | a read gets the longest run of whole head segments that fits, or exactly the size asked for if the first alone does not fit; never more; and something if there is something |
| `Audio.ReadConserves` | src/spfs_spotify.c:455-483 | what is returned followed by what stays queued is what was queued, if and only if no sample is split |
| `Audio.SamplesConserved` | src/spfs_spotify.c:459-473 | the samples counted down are the samples that left the queue |
| `AudioRuns.StepCounts` | src/spfs_spotify.c:167-190 | every critical section keeps the counter equal to the queued samples, and every queued segment non-empty |
| `AudioRuns.DeliveryAccepted` | src/spfs_spotify.c:167-190 | a delivery is accepted as a whole and put last if at most two seconds of its rate are queued; else nothing is taken and nothing changes |
| `AudioRuns.StepExact` | src/spfs_spotify.c:440-486 | a critical section keeps accepted equal to returned followed by queued, if and only if it does not split a sample |
| `AudioRuns.RunCounts` | src/spfs_spotify.c:440-486 | the same counter holds over every interleaving, aligned or not |
| `AudioRuns.RunExact` | src/spfs_spotify.c:440-486 | over every interleaving of deliveries, flushes and reads: at every moment the bytes accepted since the last flush are the bytes returned since then and then the bytes queued, if and only if no read splits a sample |
| `AudioRuns.SplitRunDoubles` | src/spfs_spotify.c:464-472 | a run from the start in which a read of three bytes of a stereo segment returns them and leaves all eight queued |
| `AudioRuns.RunBounded` | src/spfs_spotify.c:171-174 | the counter never exceeds twice the highest rate and one largest delivery |
| `PlaybackState.AudioPlayback.constructor` | src/spfs_audio.c:28-35 | an empty queue, nothing playing |
| `PlaybackState.AudioPlayback.MusicDelivery` | src/spfs_spotify.c:167-190 | the copied segment at the end of the queue and the counter raised, or nothing, as on values |
| `PlaybackState.AudioPlayback.FlushAll` | src/spfs_audio.c:14-26 | the pop loop empties the queue and counts everything down |
| `PlaybackState.AudioSegment.Shorten` | src/spfs_spotify.c:464-472 | the overlapping move within the buffer and the lower count give the value of the shortened segment |
| `PlaybackState.AudioPlayback.TakeAudio` | src/spfs_spotify.c:455-483 | the pop loop writes into the caller's buffer, from the given position, exactly the bytes that the value of the queue yields, and leaves that queue |
| `WavHeader.FieldsReadBack` | src/spfs_fuse_audiofile.c:4-18 | every field of a packed structure reads back the number it was filled with, if it fits into its width |
| `WavHeader.HeaderAnnounces` | src/spfs_fuse_audiofile.c:21-37 | a reader at the literal places of the RIFF format finds in the 44 bytes the four tags and PCM of 16 bits in the given channels and rate, with the block size of a frame, as many bytes a second as frames take, and the two sizes, if these numbers fit their fields |
| `WavSections.FirstReadAnnounces` | src/spfs_fuse_audiofile.c:53-86 | so the first bytes of a sound file announce the format that the track info of this very read has answered |
| `WavInOrder.GotAnnounces` | src/spfs_fuse_audiofile.c:76-86 | and those that a run of reads has put together, however it has split them, announce the format of the audio that follows |
| `WavAnswers.AudioAnswers` | src/spfs_spotify.c:440-486 | with any callbacks in between: nothing for a reader that finds no track at the first check or the flag set at the second; else what the queue yields the first time that, at the wait loop, something is queued or no track plays; and waiting if there is no such time |
| `WavAnswers.EmptyIsTheEnd` | src/spfs_spotify.c:440-486 | a positive read comes back empty only if it was turned away, or no track played and nothing was queued when it gave up |
| `WavAnswers.AudioComes` | src/spfs_spotify.c:435-454 | while the track plays and the flag is down, a positive read gets something if something is ever queued when it looks, and waits if nothing ever is |
| `WavAnswers.InfoAnswers` | src/spfs_spotify.c:324-349 | the format of what is queued first, the first time that something is; nothing if no track plays when it is called or at that time; and waiting if nothing ever is queued, even with the track gone |
| `WavAnswers.PlayLeavesTrack` | src/spfs_spotify.c:502-523 | says yes exactly if it loads the track or finds it playing, and then, whatever the callbacks, the track plays |
| `WavAnswers.NewTrackIsRead` | src/spfs_spotify.c:502-523 | after a new track has been started, and until something ends it, no read of audio is turned away |
| `WavAnswers.SeekLeaves` | src/spfs_spotify.c:489-500 | a seek leaves an empty queue and, until something ends the track, the track it found and the flag down, so no read after it is turned away |
| `WavAnswers.ReadFails` | src/spfs_fuse_audiofile.c:53-112 | fails if and only if it starts at 0, the track is not the one that plays and does not load; else it ends for want of a track only within the header or after a jump |
| `WholeFrames.YieldFrames` | src/spfs_spotify.c:455-483 | a read of whole frames gets whole frames and leaves the stream exact |
| `WavSections.ExpoffFollows` | src/spfs_fuse_audiofile.c:88-111 | a read that reaches its end leaves expoff at its own end, has sought exactly if it did not start at expoff, and then, in the format of the track, to a time at most the exact one and less than a second before it |
| `WavSections.CallbackStill` | src/spfs_spotify.c:143-190 | every callback, the flush at the end of a track included, keeps the log of the reader right |
| `WavSections.EndLosesQueue` | src/spfs_spotify.c:143-149 | the flush at the end of a track loses for the reader exactly the queued audio; what it was told is all it heard if and only if the queue was empty |
| `WavSections.PlayExact` | src/spfs_spotify.c:502-523 | starting a track other than the one that plays makes the stream exact, whatever reads have done to it before: what is queued then was accepted after the flush |
| `WavSections.SeekExact` | src/spfs_spotify.c:489-500 | so does a seek |
| `WavSections.SeekTargetClose` | src/spfs_fuse_audiofile.c:96-98 | the computed milliseconds are at most the exact time of the offset and less than 1000 below it |
| `WavInOrder.MonoAndStereo` | src/spfs_fuse_audiofile.c:76-86 | the 44 header bytes are a whole number of frames of one or two channels |
| `WavInOrder.ReadContinues` | src/spfs_fuse_audiofile.c:53-112 | with any callbacks in between, each read takes the results a step further along the header and the audio, as long as all audio is in one format |
| `WavInOrder.ReadAllInOrder` | src/spfs_fuse_audiofile.c:53-112 | for every run of frame-aligned reads on one handle, each starting where the last ended, with any split of the header and any interleaving of callbacks, the end of the track among them: the results together are a prefix of the 44 header bytes followed by the audio accepted since the reader itself last flushed; with what is queued and what a callback flushed away they are all of it |
| `WavInOrder.OpenedInOrder` | src/spfs_fuse_audiofile.c:54-64 | such a run may start in any playback state, with any audio queued and any expoff left over from before |
| `WavInOrder.OpenedReadsInOrder` | src/spfs_spotify.c:502-523 | a run from any playback state, whose deliveries are in one format, as the queue is if the track plays already, is in order throughout: the flush of the first read takes away what another track has left |
| `WavInOrder.EndDecides` | src/spfs_spotify.c:143-149 | after the flush at the end of a track reads get nothing more, and they have got all that was heard if and only if that flush lost nothing |
| `WavInOrder.NoSeekInOrder` | src/spfs_fuse_audiofile.c:88-104 | in such a run no read seeks once anything has been read |
| `WavFile.SoundFiles.PlayTrack` | src/spfs_spotify.c:502-523 | the flush, the flag and the new track, with the locks given up in between; nothing for the track that plays already |
| `WavFile.SoundFiles.GetTrackInfo` | src/spfs_spotify.c:324-349 | waits for a segment and gives its format, or says that nothing plays |
| `WavFile.SoundFiles.SeekTrack` | src/spfs_spotify.c:489-500 | the flag and the flush, with the locks given up in between |
| `WavFile.SoundFiles.GetAudio` | src/spfs_spotify.c:440-486 | the checks, the wait loop and the pop loop, as on values, into the caller's buffer |
| `WavFile.SoundFiles.Read` | src/spfs_fuse_audiofile.c:53-112 | the result and expoff of the value-level read; the buffer holds its bytes, zeros up to the size asked for, and is untouched after that |
| `Wakeups.StepSound` | src/spfs_spotify.c:143-157 | a step of any thread keeps the lock exclusive, and loses a wake-up exactly if it clears the track at its end while the reader waits for audio |
| `Wakeups.DeliveryServesReader` | src/spfs_spotify.c:167-190 | a delivery makes something available and wakes the reader, which then gets through its loop, wherever it waits |
| `Wakeups.RefusedServesNobody` | src/spfs_spotify.c:171-174 | one that is refused changes nothing |
| `Wakeups.TokenClears` | src/spfs_spotify.c:151-157 | the loss of the token clears the track, wakes the reader and leaves the queue |
| `Wakeups.EndFlushes` | src/spfs_spotify.c:143-144 | the end of a track first empties the queue and wakes the reader |
| `Wakeups.EndClears` | src/spfs_spotify.c:145-148 | and then clears the track and wakes nobody |
| `Wakeups.WaitsAgain` | src/spfs_spotify.c:451-454 | a reader woken in vain is blocked again, at the same wait |
| `Wakeups.ReaderTakes` | src/spfs_spotify.c:440-486 | a reader that finds something queued takes it and is done |
| `Wakeups.RunSound` | src/spfs_spotify.c:440-454 | over every interleaving no state has the reader blocked without a reason to wait or a signal to come, if and only if that step never happens |
| `Wakeups.RunWithoutEnd` | src/spfs_spotify.c:151-187 | with deliveries, token losses, seeks, new tracks and spurious wake-ups, but no end of track, no wake-up is ever lost |
| `Wakeups.EndOfTrackLosesWakeup` | src/spfs_spotify.c:143-149 | a run at whose end the reader is blocked, no track plays and every other thread is at rest |
| `Wakeups.BlockedUntilSignal` | src/spfs_spotify.c:451-454 | over every interleaving a blocked reader stays blocked if and only if no step signals |
| `Wakeups.StepHangs` | src/spfs_spotify.c:324-335 | a step leaves the reader blocked without a track and without a signal to come exactly if a track is cleared at its end under it, or it enters the wait for the format without a track |
| `Wakeups.RunHangs` | src/spfs_spotify.c:324-335 | over every interleaving the reader never hangs, in either of its waits, if and only if neither step occurs |
| `Wakeups.TokenLossHangs` | src/spfs_spotify.c:333-335 | a run with a loss of the token and no end of a track that leaves the reader waiting for the format of no track, though no wake-up is lost |
| `XspfSanitize.ReplaceAll` | src/xspf_sanitize.c:6-15 | the loop ends and computes one pass from left to right |
| `XspfSanitize.EscapeAmpersand` | src/xspf_sanitize.c:40-43 | the first ampersand, and every "!amp;" of the text, become "&amp;" |
| `XspfSanitize.Sanitize` | src/xspf_sanitize.c:45-64 | the guarded stages compute the map of quotes and brackets over the escaped ampersands |
| `XspfSanitize.FourPasses` | src/xspf_sanitize.c:47-61 | four passes, one after the other, are one pass with four cases |
| `XspfRoundTrip.SanitizedHasNoMarks` | src/xspf_sanitize.c:45-64 | for every text the result has no quote and no angle bracket |
| `XspfRoundTrip.SanitizedIsEscapeMap` | src/xspf_sanitize.c:40-64 | the five staged loops are one simultaneous escape map if and only if the text has at most one ampersand and no "!amp;" |
| `XspfRoundTrip.TwoAmpersands` | src/xspf_sanitize.c:40-43 | "&&" becomes a text that no reader accepts |
| `XspfRoundTrip.BangBecomesAmpersand` | src/xspf_sanitize.c:40-43 | "!amp;" is read back as "&" |
| `XspfRoundTrip.DecodeEscapeMap` | src/xspf_sanitize.c:17-22 | reading the five predefined entities (section 4.6 of XML 1.0) undoes the map, for every text |
| `XspfRoundTrip.SanitizedRoundTrip` | src/xspf_sanitize.c:45-64 | reading the sanitized text gives the text back if and only if it has at most one ampersand and no "!amp;" |
| `Xspf.Builder.constructor` | src/xspf.c:16-21 | the declaration, state INIT, no warnings |
| `Xspf.Builder.BeginPlaylist` | src/xspf.c:29-34 | the text grows by the tag, the state is PLAYLIST_BEGIN, a warning exactly if the state was not INIT |
| `Xspf.Builder.EndTrack` | src/xspf.c:64-69 | the text grows by the tag, the state is TRACKLIST_BEGIN, a warning exactly if the state was not TRACK_BEGIN |
| `Xspf.Builder.SetTitle` | src/xspf.c:93-97 | the text grows by the element with the sanitized title, the state stays |
| `Xspf.NoWarningIffNested` | src/xspf.c:29-69 | calls run without a warning if and only if their elements are well nested: the four states do the work of a stack |
| `XspfParse.CallsRoundTrip` | src/xspf.c:29-109 | the text of any sequence of calls parses back to these calls if and only if every title, creator and album has at most one ampersand and no "!amp;" |
| `UriEscape.PercentEncodingEscapes` | src/xspf.c:82-85 | percent-encoding as the call asks for it, with valid UTF-8 sequences kept and all other reserved or invalid bytes escaped, can be undone and writes no angle bracket, for every text |
| `UriEscape.SequenceIs` | src/xspf.c:82-85 | what is kept as a sequence is the encoding of a code point that stands for a character |
| `UriEscape.SequenceStays` | src/xspf.c:82-85 | and the encoding of every such code point is kept |
| `UriEscape.UnreservedStays` | src/xspf.c:82-85 | so is every unreserved character |
| `UriEscape.UnreservedChars` | src/xspf.c:82-85 | which are the letters, the digits and four marks |
| `UriEscape.EncodedIsUri` | src/xspf.c:82-85 | nothing but these and percent signs is written |
| `XspfTracks.BuildDocument` | src/spfs_fuse_playlist.c:59-75 | the loops make the calls of the document of the tracks, and the builder never warns |
| `XspfTracks.ReadDocumentDecodes` | src/spfs_fuse_playlist.c:33-53 | a reader of the document of any list of tracks gets the tracks with their texts decoded |
| `XspfTracks.TracksRoundTrip` | src/xspf.c:29-109 | the document of any list of tracks parses back to the same locations, durations, titles, albums and creators if and only if every title, album and creator has at most one ampersand and no "!amp;" |

## Left out

- EntityTrees.EntityTree.Create: models every entity with a name; the root is made by the constructor.
- Readdirs.ListedAgain: requires non-empty sanitized names, since the code leaves an unattached link entity behind for an empty one each time; the directory itself is covered for all names by `Readdirs.ChildrenListedAgain`.
- XspfSanitize.ReplaceAll: requires that the replacement does not bring the key back, without which the loop of the code does not end.
- WavInOrder.ReadAllInOrder: says nothing about a run in which audio is accepted after a callback has flushed and before the reader flushes itself: bytes read then follow after a gap.
- WavInOrder.OpenedReadsInOrder: requires all deliveries in one format; a late delivery for the last track, before the flush of the first read, is covered by `WavInOrder.ReadAllInOrder`.
- Link strings of libspotify: assumed shorter than the buffer of 1024 bytes, and, sanitized, not empty, not `.`, not `..` and not `track.wav` (`Places.Uri`).
- A search callback that runs before the search directory is attached: it runs with the directory still at the top of its own tree, so its links would be computed from a shorter path; the model has the callback as an event after the mkdir.
- Destroying.Destroy: states the order of freeing on the entities; that the memory is gone afterwards, and the destroying of names and callbacks, is not modelled.
- NULL arguments, which the code guards with `g_return_if_fail`.
- libspotify itself, the waiting for its data with timeouts, and the notify loop of its event thread.
- FUSE and kernel plumbing, option and configuration parsing, logging, the operations that only return an error, the filling of the kernel's directory buffer.
- Contents of attribute files, portraits, covers, biographies, stat results and times.
- `xspf_read` as wired to the tree, which reads `auxdata` from links that never set it; the builder is modelled over lists of track records.
- The source of `g_uri_escape_string` is not part of this model; `UriEscape.PercentEncode` follows what GLib documents for it.
- WavHeader.HeaderAnnounces: requires that the numbers fit their fields; what overflows in C is not modelled, nor is 32-bit overflow of counters and seek times.
- The callback that reports how many samples are queued and how often the reader has waited in vain.
- Reference counts of directories, which are decremented on release and never incremented on open.
- More than one thread of FUSE workers; there is one reader, and libspotify's threads.
- Memory leaks and allocation failure.
