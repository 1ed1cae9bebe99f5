/**
  The schedule document and the two handlers that change it.

  The document maps a date string to a map from time-slot label to the
  ordered list of task entries recorded in that slot. The `ScheduleStore`
  class holds the document as the JSON file holds it between requests: each
  handler reads it, changes it in place and writes the whole of it back.
 */
module Schedule {
  import opened Wrappers

  /** One task entry; its time slot repeats the key it is filed under. */
  datatype Task = Task(department: string, task: string, timeSlot: string)

  type Slots = map<string, seq<Task>>
  type Document = map<string, Slots>

  /** A request field as Python's truth test sees it: given and not the empty string. */
  predicate Present(field: Option<string>) {
    field.Some? && field.value != ""
  }

  /** A slot list as the handlers keep it: never empty, every entry filed under its own slot. */
  predicate SlotWellFormed(slot: string, entries: seq<Task>) {
    && entries != []
    && forall i :: 0 <= i < |entries| ==> entries[i].timeSlot == slot
  }

  /** A date's map as the handlers keep it: never empty, every slot well formed. */
  predicate DayWellFormed(day: Slots) {
    && day != map[]
    && forall slot :: slot in day ==> SlotWellFormed(slot, day[slot])
  }

  /** The document invariant: no empty date map, no empty slot list, no misfiled entry. */
  predicate WellFormed(doc: Document) {
    forall date :: date in doc ==> DayWellFormed(doc[date])
  }

  /** The entries recorded at `date` and `slot`; none when either key is missing. */
  function Entries(doc: Document, date: string, slot: string): (r: seq<Task>) {
    if date in doc && slot in doc[date] then doc[date][slot] else []
  }

  /**
    The document after one entry is added: the date and slot keys are created
    when missing, the new entry goes last, and nothing else changes.
   */
  function Append(doc: Document, date: string, slot: string, department: string, task: string): (r: Document)
    ensures r.Keys == doc.Keys + {date}
    ensures forall d :: d in doc && d != date ==> r[d] == doc[d]
    ensures r[date].Keys == (if date in doc then doc[date].Keys else {}) + {slot}
    ensures forall s :: s in r[date] && s != slot ==> r[date][s] == doc[date][s]
    ensures |r[date][slot]| == |Entries(doc, date, slot)| + 1
    ensures r[date][slot][..|r[date][slot]| - 1] == Entries(doc, date, slot)
    ensures r[date][slot][|r[date][slot]| - 1] == Task(department, task, slot)
  {
    var day := if date in doc then doc[date] else map[];
    var entries := if slot in day then day[slot] else [];
    assert (entries + [Task(department, task, slot)])[..|entries|] == entries;
    doc[date := day[slot := entries + [Task(department, task, slot)]]]
  }

  /** `index` names an entry of the document: both keys exist and the index is in bounds. */
  predicate Locates(doc: Document, date: string, slot: string, index: int) {
    date in doc && slot in doc[date] && 0 <= index < |doc[date][slot]|
  }

  /**
    The document after the entry at `index` is removed; the slot key goes when
    its list empties and the date key when its map empties.
   */
  function RemoveAt(doc: Document, date: string, slot: string, index: int): (r: Document)
    requires Locates(doc, date, slot, index)
    ensures forall d :: d != date ==> (d in r <==> d in doc)
    ensures forall d :: d in doc && d != date ==> r[d] == doc[d]
    ensures date in r <==> (|doc[date][slot]| > 1 || doc[date].Keys != {slot})
    ensures date in r ==>
              && r[date].Keys == (if |doc[date][slot]| > 1 then doc[date].Keys else doc[date].Keys - {slot})
              && forall s :: s in r[date] && s != slot ==> r[date][s] == doc[date][s]
    ensures date in r && slot in r[date] ==>
              && |r[date][slot]| == |doc[date][slot]| - 1
              && (forall j :: 0 <= j < index ==> r[date][slot][j] == doc[date][slot][j])
              && (forall j :: index <= j < |r[date][slot]| ==> r[date][slot][j] == doc[date][slot][j + 1])
              && multiset(r[date][slot]) + multiset{doc[date][slot][index]} == multiset(doc[date][slot])
  {
    var old_entries := doc[date][slot];
    var entries := old_entries[..index] + old_entries[index + 1..];
    assert old_entries == old_entries[..index] + [old_entries[index]] + old_entries[index + 1..];
    var day := if entries == [] then doc[date] - {slot} else doc[date][slot := entries];
    assert day.Keys == if entries == [] then doc[date].Keys - {slot} else doc[date].Keys;
    if day.Keys == {} then doc - {date} else doc[date := day]
  }

  /** Adding keeps the document invariant: it only ever appends to a list it may first create. */
  lemma AppendPreservesWellFormed(doc: Document, date: string, slot: string, department: string, task: string)
    requires WellFormed(doc)
    ensures WellFormed(Append(doc, date, slot, department, task))
  {
  }

  /** Deleting keeps the document invariant, because it prunes what it empties. */
  lemma RemoveAtPreservesWellFormed(doc: Document, date: string, slot: string, index: int)
    requires WellFormed(doc)
    requires Locates(doc, date, slot, index)
    ensures WellFormed(RemoveAt(doc, date, slot, index))
  {
  }

  /** Deleting the entry just added gives back the document it was added to. */
  lemma RemoveAtUndoesAppend(doc: Document, date: string, slot: string, department: string, task: string)
    requires WellFormed(doc)
    ensures Locates(Append(doc, date, slot, department, task), date, slot, |Entries(doc, date, slot)|)
    ensures RemoveAt(Append(doc, date, slot, department, task), date, slot, |Entries(doc, date, slot)|) == doc
  {
    if date in doc {
      assert DayWellFormed(doc[date]);
      if slot in doc[date] {
        assert SlotWellFormed(slot, doc[date][slot]);
      }
    }
    RemoveAtUndoesAppendWhenNonEmpty(doc, date, slot, department, task);
  }

  /** The round trip above, needing only that the affected date map and slot list are not empty. */
  lemma RemoveAtUndoesAppendWhenNonEmpty(doc: Document, date: string, slot: string, department: string, task: string)
    requires date in doc ==> doc[date].Keys != {}
    requires date in doc && slot in doc[date] ==> doc[date][slot] != []
    ensures Locates(Append(doc, date, slot, department, task), date, slot, |Entries(doc, date, slot)|)
    ensures RemoveAt(Append(doc, date, slot, department, task), date, slot, |Entries(doc, date, slot)|) == doc
  {
    var t := Task(department, task, slot);
    var day := if date in doc then doc[date] else map[];
    var entries := Entries(doc, date, slot);
    var added := Append(doc, date, slot, department, task);
    assert added == doc[date := day[slot := entries + [t]]];
    var n := |entries|;
    assert (entries + [t])[..n] + (entries + [t])[n + 1..] == entries;
    if date !in doc {
      assert RemoveAt(added, date, slot, n) == added - {date};
    } else if slot !in doc[date] {
      assert day[slot := [t]] - {slot} == day;
    } else {
      assert entries != [] && added[date][slot] == entries + [t];
      assert added[date][slot := entries] == day[slot := entries];
      assert RemoveAt(added, date, slot, n) == added[date := day[slot := entries]];
      assert day[slot := entries] == day;
    }
  }

  /** What a handler answers: whether it succeeded, and why not. */
  datatype Status = TaskAdded | FieldsMissing | TaskDeleted | InfoMissing | TaskNotFound {

    predicate Success() {
      this == TaskAdded || this == TaskDeleted
    }

    /** The message the handler sends back with its answer. */
    function Message(): (m: string) {
      match this
      case TaskAdded => "업무가 추가되었습니다."
      case FieldsMissing => "모든 필드를 입력해주세요."
      case TaskDeleted => "업무가 삭제되었습니다."
      case InfoMissing => "필수 정보가 누락되었습니다."
      case TaskNotFound => "삭제할 업무를 찾을 수 없습니다."
    }
  }

  /** The stored schedule document and the two handlers that change it. */
  class ScheduleStore {
    var document: Document

    /** The document as loaded from the store. */
    constructor (stored: Document)
      ensures document == stored
    {
      document := stored;
    }

    /** `get_schedule`: the whole document, unfiltered. */
    method GetSchedule() returns (doc: Document)
      ensures doc == document
    {
      doc := document;
    }

    /**
      `add_task`: refuse unless all four fields are given and non-empty, then
      create the date and slot keys as needed and append the new entry.
     */
    method AddTask(department: Option<string>, date: Option<string>, timeSlot: Option<string>, task: Option<string>)
      returns (status: Status)
      modifies this
      ensures status == (if Present(department) && Present(date) && Present(timeSlot) && Present(task)
                         then TaskAdded else FieldsMissing)
      ensures document == (if status.Success()
                           then Append(old(document), date.value, timeSlot.value, department.value, task.value)
                           else old(document))
      ensures old(WellFormed(document)) ==> WellFormed(document)
    {
      if !(Present(department) && Present(date) && Present(timeSlot) && Present(task)) {
        return FieldsMissing;
      }
      ghost var before := document;
      var d, s := date.value, timeSlot.value;
      ghost var day := if d in before then before[d] else map[];
      if d !in document {
        document := document[d := map[]];
      }
      assert document == before[d := day];
      ghost var entries := Entries(before, d, s);
      if s !in document[d] {
        document := document[d := document[d][s := []]];
      } else {
        assert day[s := entries] == day;
      }
      assert document == before[d := day[s := entries]];
      var info := Task(department.value, task.value, s);
      assert day[s := entries][s := entries + [info]] == day[s := entries + [info]];
      document := document[d := document[d][s := document[d][s] + [info]]];
      assert document == before[d := day[s := entries + [info]]];
      if WellFormed(before) {
        AppendPreservesWellFormed(before, d, s, department.value, task.value);
      }
      return TaskAdded;
    }

    /**
      `delete_task`: refuse unless date and slot are given and non-empty and an
      index is given; refuse when the keys or the index do not name an entry;
      otherwise remove that entry and prune the slot and date it emptied.
     */
    method DeleteTask(date: Option<string>, timeSlot: Option<string>, taskIndex: Option<int>)
      returns (status: Status)
      modifies this
      ensures status == (if !(Present(date) && Present(timeSlot) && taskIndex.Some?) then InfoMissing
                         else if Locates(old(document), date.value, timeSlot.value, taskIndex.value) then TaskDeleted
                         else TaskNotFound)
      ensures document == (if status.Success()
                           then RemoveAt(old(document), date.value, timeSlot.value, taskIndex.value)
                           else old(document))
      ensures old(WellFormed(document)) ==> WellFormed(document)
    {
      if !(Present(date) && Present(timeSlot) && taskIndex.Some?) {
        return InfoMissing;
      }
      ghost var before := document;
      var d, s, i := date.value, timeSlot.value, taskIndex.value;
      if d in document && s in document[d] {
        var tasks := document[d][s];
        if 0 <= i < |tasks| {
          tasks := tasks[..i] + tasks[i + 1..];
          document := document[d := document[d][s := tasks]];
          if tasks == [] {
            document := document[d := document[d] - {s}];
          }
          ghost var day := document[d];
          assert day == if tasks == [] then before[d] - {s} else before[d][s := tasks];
          assert day.Keys == {} <==> day == map[];
          if document[d] == map[] {
            document := document - {d};
          } else {
            assert document == before[d := day];
          }
          assert document == RemoveAt(before, d, s, i);
          if WellFormed(before) {
            RemoveAtPreservesWellFormed(before, d, s, i);
          }
          return TaskDeleted;
        }
      }
      return TaskNotFound;
    }
  }
}
