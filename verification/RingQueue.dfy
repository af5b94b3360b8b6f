/**
 The ring as one host uses it: push and pop calls over shared slots, updated word by word.
 `Ring` shows that their steps may interleave; here each call is proved to be one queue operation.
 */
module RingQueue {
  import opened Ring

  datatype Status = Done | QueueFull | Refused

  class SpscQueue {
    const source: nat
    const target: nat
    const sequences: array<nat>
    const words: array2<Word>
    var head: nat
    var tail: nat
    ghost var queue: seq<Message>

    ghost predicate Valid()
      reads this, sequences, words
    {
      && sequences.Length > 0 && words.Length0 == sequences.Length && words.Length1 == HeaderWords + PayloadLimit
      && head <= tail <= head + sequences.Length && |queue| == tail - head
      && (forall i :: 0 <= i < |queue| ==> Fits(queue[i]) && Holds(head + i, queue[i]))
    }

    predicate Fits(m: Message) {
      m.kind != 0 && m.source == source && m.target == target && |m.payload| <= PayloadLimit
    }

    /** The slot of position `k` holds `m`, published. */
    ghost predicate Holds(k: nat, m: Message)
      requires sequences.Length > 0 && words.Length0 == sequences.Length && words.Length1 == HeaderWords + PayloadLimit
      requires |m.payload| <= PayloadLimit
      reads sequences, words
    {
      && sequences[k % sequences.Length] == k + 1
      && forall j :: 0 <= j < |Encode(m)| ==> words[k % sequences.Length, j] == Encode(m)[j]
    }

    constructor (capacity: nat, source: nat, target: nat)
      requires capacity > 0
      ensures Valid() && queue == [] && sequences.Length == capacity && this.source == source && this.target == target
      ensures fresh(sequences) && fresh(words)
    {
      this.source := source;
      this.target := target;
      sequences := new nat[capacity](_ => 0);
      words := new Word[capacity, HeaderWords + PayloadLimit]((_, _) => 0);
      head, tail, queue := 0, 0, [];
    }

    method Push(m: Message) returns (status: Status)
      requires Valid()
      modifies this, sequences, words
      ensures Valid() && head == old(head)
      ensures status == Refused <==> m.kind == 0 || m.source != source || m.target != target || |m.payload| > 128
      ensures status == QueueFull <==> status != Refused && old(|queue|) == sequences.Length
      ensures queue == if status == Done then old(queue) + [m] else old(queue)
    {
      if !Fits(m) { return Refused; }
      if tail - head >= sequences.Length { return QueueFull; }
      Store(tail % sequences.Length, Encode(m), tail + 1);
      ghost var q := queue + [m];
      forall i | 0 <= i < |q| ensures Fits(q[i]) && Holds(head + i, q[i]) {
        if i < |queue| {
          assert old(Holds(head + i, queue[i]));
          DifferentSlots(head + i, tail, sequences.Length);
        }
      }
      tail := tail + 1;
      queue := q;
      return Done;
    }

    /** Writes the words of a slot one by one, then its sequence. */
    method Store(slot: nat, image: seq<Word>, sequence: nat)
      requires slot < sequences.Length == words.Length0 && |image| <= words.Length1
      modifies sequences, words
      ensures sequences[slot] == sequence && forall k :: 0 <= k < sequences.Length && k != slot ==> sequences[k] == old(sequences[k])
      ensures forall k, j :: 0 <= k < words.Length0 && 0 <= j < words.Length1 ==>
        words[k, j] == if k == slot && j < |image| then image[j] else old(words[k, j])
    {
      for n := 0 to |image|
        invariant forall k, j :: 0 <= k < words.Length0 && 0 <= j < words.Length1 ==>
          words[k, j] == if k == slot && j < n then image[j] else old(words[k, j])
        modifies words
      {
        words[slot, n] := image[n];
      }
      sequences[slot] := sequence;
    }

    method TryPop() returns (popped: bool, m: Message)
      requires Valid()
      modifies this`head, this`queue
      ensures Valid() && tail == old(tail)
      ensures popped <==> old(queue) != []
      ensures popped ==> m == old(queue)[0] && queue == old(queue)[1..]
      ensures !popped ==> queue == old(queue)
    {
      m := Message(0, 0, 0, []);
      if head == tail { return false, m; }
      var slot := head % sequences.Length;
      ghost var front := queue[0];
      assert Holds(head + 0, front);
      if sequences[slot] != head + 1 { return false, m; }
      var w := seq(HeaderWords, j requires 0 <= j < HeaderWords && slot < words.Length0 && words.Length1 == HeaderWords + PayloadLimit
                   reads words => words[slot, j]);
      if w[0] == 0 || w[1] != source || w[2] != target || w[3] > PayloadLimit { return false, m; }
      var length := w[3];
      for j := 0 to length
        invariant w == Encode(front)[..HeaderWords + j] && length == |front.payload|
      {
        w := w + [words[slot, HeaderWords + j]];
      }
      DecodeEncode(front);
      assert w == Encode(front);
      m := Decode(w);
      forall i | 0 <= i < |queue[1..]| ensures Fits(queue[1..][i]) && Holds(head + 1 + i, queue[1..][i]) {
        assert Holds(head + (i + 1), queue[i + 1]);
      }
      head := head + 1;
      queue := queue[1..];
      return true, m;
    }
  }
}
