/** The three stages of image_processing.py around their work functions:
    ImageFetcher.process_image, ImageStatistics.calculate_stats and
    Logger.log_results. Each stage names the k-th file it reads or writes
    after its own task counter, and hands its results on through a shared
    list (append at the back, pop(0) at the front) or through a directory. */
module Stages {
  import opened Common
  import opened ImageProcessing
  import opened ImageStatistics
  import P = Process

  /** A shared list used as a buffer between two stages. `history` is every
      item ever appended and `taken` how many of them were popped, so the
      list holds exactly the items appended and not yet taken, in order. */
  class Channel<T> {
    var items: seq<T>
    ghost var history: seq<T>
    ghost var taken: nat

    ghost predicate Valid()
      reads this
    {
      taken <= |history| && items == history[taken..]
    }

    constructor ()
      ensures Valid() && items == [] && history == [] && taken == 0
    {
      items := [];
      history := [];
      taken := 0;
    }

    /** list.append(x). */
    method Append(x: T)
      requires Valid()
      modifies this
      ensures Valid()
      ensures items == old(items) + [x] && history == old(history) + [x] && taken == old(taken)
    {
      items := items + [x];
      history := history + [x];
    }

    /** list.pop(0): the oldest item not yet taken, which is the taken-th item
        ever appended; IndexError on an empty list. */
    method Pop() returns (r: Result<T>)
      requires Valid()
      modifies this
      ensures Valid() && history == old(history)
      ensures old(items) == [] ==> r == Failure(IndexError) && items == old(items) && taken == old(taken)
      ensures old(items) != [] ==>
        r == Success(old(history)[old(taken)]) && items == old(items)[1..] && taken == old(taken) + 1
    {
      if items == [] {
        return Failure(IndexError);
      }
      r := Success(items[0]);
      items := items[1..];
      taken := taken + 1;
    }
  }

  /** What a file holds: a decoded image, or the JSON object
      {'Path': path, 'Statistics': statistics} the statistics stage writes. */
  datatype File = ImageFile(image: Picture) | JsonFile(path: string, statistics: Stats)

  /** The directories the stages read and write, as one map from path to file. */
  class FileSystem {
    var files: map<string, File>

    constructor (files: map<string, File>)
      ensures this.files == files
    {
      this.files := files;
    }
  }

  /** Opening an image file. */
  function ImageAt(files: map<string, File>, path: string): (r: Result<Picture>)
    ensures r.Success? <==> path in files && files[path].ImageFile?
    ensures r.Success? ==> files[path] == ImageFile(r.value)
    ensures r.Failure? ==> r.error == if path in files then WrongContent(path) else FileNotFound(path)
  {
    if path !in files then Failure(FileNotFound(path))
    else if files[path].ImageFile? then Success(files[path].image)
    else Failure(WrongContent(path))
  }

  /** `json.load(f)['Statistics']`. */
  function StatisticsAt(files: map<string, File>, path: string): (r: Result<Stats>)
    ensures r.Success? <==> path in files && files[path].JsonFile?
    ensures r.Success? ==> files[path].statistics == r.value
    ensures r.Failure? ==> r.error == if path in files then WrongContent(path) else FileNotFound(path)
  {
    if path !in files then Failure(FileNotFound(path))
    else if files[path].JsonFile? then Success(files[path].statistics)
    else Failure(WrongContent(path))
  }

  /** The background colour of process_image's default argument, the one
      do_work's call `fun()` uses. */
  const White: seq<int> := [255, 255, 255]

  /** What the fetcher's k-th call produces: the crop of its k-th image with
      the background standardised, or the exception on the way. */
  function Fetched(paths: seq<string>, files: map<string, File>, k: nat, background: seq<int>): Result<Picture>
  {
    if k >= |paths| then Failure(IndexError)
    else match ImageAt(files, paths[k])
      case Failure(e) => Failure(e)
      case Success(img) => Processed(img, background)
  }

  /** ImageFetcher: a worker fed one unit per input image, each unit the next
      image in order. */
  class ImageFetcher {
    const worker: P.Worker
    const paths: seq<string>
    const output: P.Connector<Channel<Picture>>
    const fs: FileSystem
    var current: nat

    /** The pending counter of the fetcher's worker starts at the number of
        images and the first image is the 0-th; the output side is the
        buffer when one is given, else the directory. */
    constructor (worker: P.Worker, paths: seq<string>, outputBuffer: Option<Channel<Picture>>,
                 outputPath: Option<string>, fs: FileSystem)
      modifies worker
      ensures this.worker == worker && this.paths == paths && this.fs == fs
      ensures output == P.Connect(outputBuffer, outputPath)
      ensures current == 0 && worker.pending == |paths|
      ensures worker.running == old(worker.running) && worker.terminated == old(worker.terminated)
      ensures worker.admissionOpen == old(worker.admissionOpen) && worker.handshakeHeld == old(worker.handshakeHeld)
      ensures worker.runs == old(worker.runs)
    {
      this.worker := worker;
      this.paths := paths;
      this.output := P.Connect(outputBuffer, outputPath);
      this.fs := fs;
      current := 0;
      new;
      worker.pending := |paths|;
    }

    function Outputs(): set<Channel<Picture>>
    {
      if output.Buffer? then {output.buffer} else {}
    }

    ghost function Sent(): seq<Picture>
      reads Outputs()
    {
      if output.Buffer? then output.buffer.items else []
    }

    /** process_image with its default background: the current image is
        processed and saved as `<current>.png` in the output directory, or
        appended to the output buffer, and the counter moves on. A failing
        call changes nothing; one without an output raises after processing. */
    method ProcessNext() returns (r: Result<()>)
      requires output.Buffer? ==> output.buffer.Valid()
      modifies this, fs, Outputs()
      ensures output.Buffer? ==> output.buffer.Valid()
      ensures var e := Fetched(paths, old(fs.files), old(current), White);
        r.Success? <==> e.Success? && !output.Unset?
      ensures var e := Fetched(paths, old(fs.files), old(current), White);
        r.Failure? ==>
          r.error == (if e.Failure? then e.error else MissingConnector) &&
          current == old(current) && fs.files == old(fs.files) && Sent() == old(Sent())
      ensures var e := Fetched(paths, old(fs.files), old(current), White);
        r.Success? ==>
          current == old(current) + 1 &&
          (output.Directory? ==>
             fs.files == old(fs.files)[Join(output.path, TaskFile(old(current), ".png")) := ImageFile(e.value)]) &&
          (output.Buffer? ==>
             fs.files == old(fs.files) && Sent() == old(Sent()) + [e.value] &&
             output.buffer.history == old(output.buffer.history) + [e.value])
    {
      if current >= |paths| {
        return Failure(IndexError);
      }
      var img := ImageAt(fs.files, paths[current]);
      if img.Failure? {
        return Failure(img.error);
      }
      var box := ProcessImage(img.value, White);
      if box.Failure? {
        return Failure(box.error);
      }
      match output {
        case Unset =>
          return Failure(MissingConnector);
        case Directory(dir) =>
          fs.files := fs.files[Join(dir, TaskFile(current, ".png")) := ImageFile(box.value)];
        case Buffer(channel) =>
          channel.Append(box.value);
      }
      current := current + 1;
      return Success(());
    }
  }

  /** Where the statistics stage's k-th image comes from: the front of its
      input buffer, named `k.png`, or the file `k.png` of its input
      directory, named by its full path. */
  function ImageInput(input: P.Connector<Channel<Picture>>, front: seq<Picture>, files: map<string, File>, k: nat)
    : Result<(string, Picture)>
  {
    match input
    case Unset => Failure(MissingConnector)
    case Buffer(_) => if front == [] then Failure(IndexError) else Success((TaskFile(k, ".png"), front[0]))
    case Directory(dir) =>
      var path := Join(dir, TaskFile(k, ".png"));
      match ImageAt(files, path)
      case Failure(e) => Failure(e)
      case Success(img) => Success((path, img))
  }

  /** The ImageStatistics stage. */
  class StatisticsStage {
    const stats: seq<string>
    const input: P.Connector<Channel<Picture>>
    const output: P.Connector<Channel<Stats>>
    const fs: FileSystem
    var counter: nat

    /** Each side is the buffer when one is given, else the directory. */
    constructor (stats: seq<string>, inputBuffer: Option<Channel<Picture>>, inputPath: Option<string>,
                 outputBuffer: Option<Channel<Stats>>, outputPath: Option<string>, fs: FileSystem)
      ensures this.stats == stats && this.fs == fs
      ensures input == P.Connect(inputBuffer, inputPath) && output == P.Connect(outputBuffer, outputPath)
      ensures counter == 0
    {
      this.stats := stats;
      this.input := P.Connect(inputBuffer, inputPath);
      this.output := P.Connect(outputBuffer, outputPath);
      this.fs := fs;
      counter := 0;
    }

    function Inputs(): set<Channel<Picture>>
    {
      if input.Buffer? then {input.buffer} else {}
    }

    function Outputs(): set<Channel<Stats>>
    {
      if output.Buffer? then {output.buffer} else {}
    }

    ghost function Received(): seq<Picture>
      reads Inputs()
    {
      if input.Buffer? then input.buffer.items else []
    }

    ghost function Sent(): seq<Stats>
      reads Outputs()
    {
      if output.Buffer? then output.buffer.items else []
    }

    /** calculate_stats: take the counter-th image, compute its dictionary
        and pass it on, appended to the output buffer or written as
        `<counter>.json` in the output directory together with the image's
        name, then move the counter on. An image popped from the buffer is
        consumed even when the call then raises. */
    method CalculateStats() returns (r: Result<()>)
      requires input.Buffer? ==> input.buffer.Valid()
      requires output.Buffer? ==> output.buffer.Valid()
      modifies this, fs, Inputs(), Outputs()
      ensures input.Buffer? ==> input.buffer.Valid() && input.buffer.history == old(input.buffer.history)
      ensures output.Buffer? ==> output.buffer.Valid()
      ensures input.Buffer? ==>
        if old(Received()) == [] then Received() == [] && input.buffer.taken == old(input.buffer.taken)
        else Received() == old(Received())[1..] && input.buffer.taken == old(input.buffer.taken) + 1
      ensures var got := ImageInput(input, old(Received()), old(fs.files), old(counter));
        r.Success? <==> got.Success? && StatsOf(stats, got.value.1).Success? && !output.Unset?
      ensures var got := ImageInput(input, old(Received()), old(fs.files), old(counter));
        r.Failure? ==>
          r.error == (if got.Failure? then got.error
                      else if StatsOf(stats, got.value.1).Failure? then StatsOf(stats, got.value.1).error
                      else MissingConnector) &&
          counter == old(counter) && fs.files == old(fs.files) && Sent() == old(Sent())
      ensures var got := ImageInput(input, old(Received()), old(fs.files), old(counter));
        r.Success? ==>
          var d := StatsOf(stats, got.value.1).value;
          counter == old(counter) + 1 &&
          (output.Directory? ==>
             fs.files == old(fs.files)[Join(output.path, TaskFile(old(counter), ".json")) := JsonFile(got.value.0, d)]) &&
          (output.Buffer? ==>
             fs.files == old(fs.files) && Sent() == old(Sent()) + [d] &&
             output.buffer.history == old(output.buffer.history) + [d])
    {
      var got := ReadInput();
      if got.Failure? {
        return Failure(got.error);
      }
      var d := ComputeStatistics(stats, got.value.1);
      if d.Failure? {
        return Failure(d.error);
      }
      r := Emit(got.value.0, d.value);
    }

    /** The output half of calculate_stats, with the counter moving on. */
    method Emit(path: string, d: Stats) returns (r: Result<()>)
      requires output.Buffer? ==> output.buffer.Valid()
      modifies this`counter, fs, Outputs()
      ensures output.Buffer? ==> output.buffer.Valid()
      ensures r.Success? <==> !output.Unset?
      ensures r.Failure? ==>
        r.error == MissingConnector && counter == old(counter) && fs.files == old(fs.files) && Sent() == old(Sent())
      ensures r.Success? ==>
        counter == old(counter) + 1 &&
        (output.Directory? ==>
           fs.files == old(fs.files)[Join(output.path, TaskFile(old(counter), ".json")) := JsonFile(path, d)]) &&
        (output.Buffer? ==>
           fs.files == old(fs.files) && Sent() == old(Sent()) + [d] &&
           output.buffer.history == old(output.buffer.history) + [d])
    {
      match output {
        case Unset =>
          return Failure(MissingConnector);
        case Directory(dir) =>
          fs.files := fs.files[Join(dir, TaskFile(counter, ".json")) := JsonFile(path, d)];
        case Buffer(channel) =>
          channel.Append(d);
      }
      counter := counter + 1;
      return Success(());
    }

    /** The input half of calculate_stats. */
    method ReadInput() returns (got: Result<(string, Picture)>)
      requires input.Buffer? ==> input.buffer.Valid()
      modifies Inputs()
      ensures got == ImageInput(input, old(Received()), fs.files, counter)
      ensures input.Buffer? ==> input.buffer.Valid() && input.buffer.history == old(input.buffer.history)
      ensures input.Buffer? ==>
        if old(Received()) == [] then Received() == [] && input.buffer.taken == old(input.buffer.taken)
        else Received() == old(Received())[1..] && input.buffer.taken == old(input.buffer.taken) + 1
    {
      match input
      case Unset =>
        return Failure(MissingConnector);
      case Buffer(channel) =>
        var item := channel.Pop();
        if item.Failure? {
          return Failure(item.error);
        }
        return Success((TaskFile(counter, ".png"), item.value));
      case Directory(dir) =>
        var path := Join(dir, TaskFile(counter, ".png"));
        var img := ImageAt(fs.files, path);
        if img.Failure? {
          return Failure(img.error);
        }
        return Success((path, img.value));
    }
  }

  /** Where the logger's k-th dictionary comes from: the front of its input
      buffer, named `k.json`, or the statistics of the file `k.json` of its
      input directory, named by its full path. */
  function StatsInput(input: P.Connector<Channel<Stats>>, front: seq<Stats>, files: map<string, File>, k: nat)
    : Result<(string, Stats)>
  {
    match input
    case Unset => Failure(MissingConnector)
    case Buffer(_) => if front == [] then Failure(IndexError) else Success((TaskFile(k, ".json"), front[0]))
    case Directory(dir) =>
      var path := Join(dir, TaskFile(k, ".json"));
      match StatisticsAt(files, path)
      case Failure(e) => Failure(e)
      case Success(d) => Success((path, d))
  }

  /** The Logger stage: `rows` are the rows of its data frame, kept only
      when an output file is set. */
  class Logger {
    const input: P.Connector<Channel<Stats>>
    const fs: FileSystem
    const keepRows: bool
    var counter: nat
    var rows: seq<Stats>

    /** The input side is the buffer when one is given, else the directory;
        rows are kept when the output file name is set and not empty. */
    constructor (inputBuffer: Option<Channel<Stats>>, inputPath: Option<string>, fs: FileSystem,
                 outputFile: Option<string>)
      ensures input == P.Connect(inputBuffer, inputPath) && this.fs == fs
      ensures keepRows <==> outputFile.Some? && outputFile.value != ""
      ensures counter == 0 && rows == []
    {
      this.input := P.Connect(inputBuffer, inputPath);
      this.fs := fs;
      this.keepRows := outputFile.Some? && outputFile.value != "";
      counter := 0;
      rows := [];
    }

    function Inputs(): set<Channel<Stats>>
    {
      if input.Buffer? then {input.buffer} else {}
    }

    ghost function Received(): seq<Stats>
      reads Inputs()
    {
      if input.Buffer? then input.buffer.items else []
    }

    /** log_results: take the counter-th dictionary, record under 'Path' the
        name it was read by, add it as a row when an output file is set, and
        move the counter on. */
    method LogResults() returns (r: Result<()>)
      requires input.Buffer? ==> input.buffer.Valid()
      modifies this, Inputs()
      ensures input.Buffer? ==> input.buffer.Valid() && input.buffer.history == old(input.buffer.history)
      ensures input.Buffer? ==>
        if old(Received()) == [] then Received() == [] && input.buffer.taken == old(input.buffer.taken)
        else Received() == old(Received())[1..] && input.buffer.taken == old(input.buffer.taken) + 1
      ensures var got := StatsInput(input, old(Received()), fs.files, old(counter));
        r.Success? <==> got.Success?
      ensures var got := StatsInput(input, old(Received()), fs.files, old(counter));
        r.Failure? ==> r.error == got.error && counter == old(counter) && rows == old(rows)
      ensures var got := StatsInput(input, old(Received()), fs.files, old(counter));
        r.Success? ==>
          counter == old(counter) + 1 &&
          rows == old(rows) + if keepRows then [got.value.1[Path := StrV(got.value.0)]] else []
    {
      var got: Result<(string, Stats)>;
      match input {
        case Unset =>
          got := Failure(MissingConnector);
        case Buffer(channel) =>
          var item := channel.Pop();
          got := if item.Failure? then Failure(item.error) else Success((TaskFile(counter, ".json"), item.value));
        case Directory(dir) =>
          var path := Join(dir, TaskFile(counter, ".json"));
          var d := StatisticsAt(fs.files, path);
          got := if d.Failure? then Failure(d.error) else Success((path, d.value));
      }
      if got.Failure? {
        return Failure(got.error);
      }
      var statistics := got.value.1[Path := StrV(got.value.0)];
      if keepRows {
        rows := rows + [statistics];
      }
      counter := counter + 1;
      return Success(());
    }
  }

  /** Through a shared directory, the statistics stage's k-th call reads the
      image the fetcher's k-th call saved there, and the logger's k-th call
      the dictionary the statistics stage's k-th call saved. */
  lemma DirectoryHandoff(dir: string, files: map<string, File>, k: nat, img: Picture, path: string, d: Stats)
    ensures var png := Join(dir, TaskFile(k, ".png"));
      ImageInput(P.Directory(dir), [], files[png := ImageFile(img)], k) == Success((png, img))
    ensures var json := Join(dir, TaskFile(k, ".json"));
      StatsInput(P.Directory(dir), [], files[json := JsonFile(path, d)], k) == Success((json, d))
  {
  }

  /** Saving the j-th file of a directory does not change what a stage's
      k-th call reads there, for j != k: the task files have distinct names. */
  lemma OtherTaskKeeps(dir: string, files: map<string, File>, k: nat, j: nat, x: File)
    requires j != k
    ensures ImageInput(P.Directory(dir), [], files[Join(dir, TaskFile(j, ".png")) := x], k) ==
            ImageInput(P.Directory(dir), [], files, k)
    ensures StatsInput(P.Directory(dir), [], files[Join(dir, TaskFile(j, ".json")) := x], k) ==
            StatsInput(P.Directory(dir), [], files, k)
  {
    TaskPathInjective(dir, k, j, ".png");
    TaskPathInjective(dir, k, j, ".json");
  }
}
