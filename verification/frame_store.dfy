/** The on-disk frame store: one directory per calendar day under `images/`,
    each holding the frame files written that day. */
module FrameStore {
  import opened Calendar
  import opened FrameNames

  /** Image root, relative to the configurable base directory. */
  const ImagesDir: string := "images"

  /** Directory path -> names of the files in it. */
  type Store = map<string, set<string>>

  /** The directory a day's frames go to: `images/YYYY-MM-DD`. */
  function DayDir(d: Date): string
    requires Valid(d)
  {
    ImagesDir + "/" + Iso(d)
  }

  /** Different days never share a directory. */
  lemma DayDirInjective(a: Date, b: Date)
    requires Valid(a) && Valid(b)
    ensures DayDir(a) == DayDir(b) <==> a == b
  {
    if DayDir(a) == DayDir(b) {
      assert Iso(a) == DayDir(a)[|ImagesDir| + 1..];
      assert Iso(b) == DayDir(b)[|ImagesDir| + 1..];
      IsoInjective(a, b);
    }
  }

  /** `mkdir(parents=True, exist_ok=True)`: the directory exists afterwards,
      and nothing already on disk changes. */
  function EnsureDir(store: Store, dir: string): (r: Store)
    ensures r.Keys == store.Keys + {dir}
    ensures forall d :: d in store ==> r[d] == store[d]
    ensures dir !in store ==> r[dir] == {}
  {
    if dir in store then store else store[dir := {}]
  }

  lemma EnsureDirIdempotent(store: Store, dir: string)
    ensures EnsureDir(EnsureDir(store, dir), dir) == EnsureDir(store, dir)
  {
  }

  /** Writing one file (an existing name is overwritten). */
  function WriteFile(store: Store, dir: string, name: string): (r: Store)
    ensures r.Keys == store.Keys + {dir}
    ensures r[dir] == (if dir in store then store[dir] else {}) + {name}
    ensures forall d :: d in store && d != dir ==> r[d] == store[d]
  {
    store[dir := (if dir in store then store[dir] else {}) + {name}]
  }
}
