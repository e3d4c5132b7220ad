/**
 * The to-do records of the early versions: a todo is `{task}`, and the
 * to-do board of 07_from_todo_to_kanban is a list of lanes, each with a name
 * and its own list of todos.
 */
module TodoModel {
  datatype Todo = Todo(task: string)

  datatype TodoLane = TodoLane(name: string, todos: seq<Todo>)
}

/** 06_react_and_flux/app/TodoStore.js: the store the chapter starts from, addressed by position. */
module ReactFlux06RootTodoStore {
  import opened JsArray
  import opened TodoModel

  class TodoStore {
    var todos: seq<Todo>

    constructor ()
      ensures todos == []
    {
      todos := [];
    }

    /** `createTodo(task)`: appends `{task}`. */
    method CreateTodo(task: string)
      modifies this
      ensures todos == old(todos) + [Todo(task)]
    {
      todos := todos + [Todo(task)];
    }

    /** `updateTodo({id, task})`: `todos[id].task = task`, which throws for a position outside the list. */
    method UpdateTodo(id: int, task: string) returns (status: Status)
      modifies this
      ensures 0 <= id < |old(todos)| ==> status == Completed && todos == old(todos)[id := Todo(task)]
      ensures !(0 <= id < |old(todos)|) ==> status == TypeError && todos == old(todos)
    {
      if !(0 <= id < |todos|) {
        return TypeError;
      }
      todos := todos[id := todos[id].(task := task)];
      status := Completed;
    }

    /** `removeTodo(id)`: `todos.slice(0, id).concat(todos.slice(id + 1))`. */
    method RemoveTodo(id: int)
      modifies this
      ensures todos == SliceOut(old(todos), id)
      ensures 0 <= id < |old(todos)| ==> todos == old(todos)[..id] + old(todos)[id + 1..] && |todos| == |old(todos)| - 1
    {
      todos := SliceOut(todos, id);
    }
  }
}

/** 06_react_and_flux/app/stores/TodoStore.js: `init` from storage and an in-place `push`. */
module ReactFlux06TodoStore {
  import opened JsArray
  import opened TodoModel

  class TodoStore {
    var todos: seq<Todo>

    /** `init(data)`: `data || {todos: []}`; None stands for falsy data. */
    method Init(data: Option<seq<Todo>>)
      modifies this
      ensures data.None? ==> todos == []
      ensures data.Some? ==> todos == data.value
    {
      todos := if data.Some? then data.value else [];
    }

    /** `createTodo(task)`: `this.todos.push({task})`. */
    method CreateTodo(task: string)
      modifies this
      ensures todos == old(todos) + [Todo(task)]
    {
      todos := todos + [Todo(task)];
    }

    method UpdateTodo(id: int, task: string) returns (status: Status)
      modifies this
      ensures 0 <= id < |old(todos)| ==> status == Completed && todos == old(todos)[id := Todo(task)]
      ensures !(0 <= id < |old(todos)|) ==> status == TypeError && todos == old(todos)
    {
      if !(0 <= id < |todos|) {
        return TypeError;
      }
      todos := todos[id := todos[id].(task := task)];
      status := Completed;
    }

    method RemoveTodo(id: int)
      modifies this
      ensures todos == SliceOut(old(todos), id)
      ensures 0 <= id < |old(todos)| ==> todos == old(todos)[..id] + old(todos)[id + 1..]
    {
      todos := SliceOut(todos, id);
    }
  }
}

/** 07_from_todo_to_kanban: lanes of todos, each handler addressing a lane and a todo by position. */
module TodoKanbanAppStore {
  import opened JsArray
  import opened TodoModel

  class AppStore {
    var lanes: seq<TodoLane>

    /** `init(data)`: `data || {lanes: []}`. */
    method Init(data: Option<seq<TodoLane>>)
      modifies this
      ensures data.None? ==> lanes == []
      ensures data.Some? ==> lanes == data.value
    {
      lanes := if data.Some? then data.value else [];
    }

    /** `createLane(data)`: ignores its argument and appends an empty lane called 'New lane'. */
    method CreateLane(data: string)
      modifies this
      ensures lanes == old(lanes) + [TodoLane("New lane", [])]
    {
      lanes := lanes + [TodoLane("New lane", [])];
    }

    /** `createTodo({lane, task})`: pushes `{task}` onto the todos of lane `lane`; a lane outside the list throws. */
    method CreateTodo(lane: int, task: string) returns (status: Status)
      modifies this
      ensures 0 <= lane < |old(lanes)| ==>
        status == Completed && lanes == old(lanes)[lane := old(lanes)[lane].(todos := old(lanes)[lane].todos + [Todo(task)])]
      ensures !(0 <= lane < |old(lanes)|) ==> status == TypeError && lanes == old(lanes)
    {
      if !(0 <= lane < |lanes|) {
        return TypeError;
      }
      lanes := lanes[lane := lanes[lane].(todos := lanes[lane].todos + [Todo(task)])];
      status := Completed;
    }

    /** `updateTodo({lane, id, task})`: sets the task of todo `id` of lane `lane`; either position outside its list throws. */
    method UpdateTodo(lane: int, id: int, task: string) returns (status: Status)
      modifies this
      ensures 0 <= lane < |old(lanes)| && 0 <= id < |old(lanes)[lane].todos| ==>
        status == Completed && lanes == old(lanes)[lane := old(lanes)[lane].(todos := old(lanes)[lane].todos[id := Todo(task)])]
      ensures !(0 <= lane < |old(lanes)| && 0 <= id < |old(lanes)[lane].todos|) ==> status == TypeError && lanes == old(lanes)
    {
      if !(0 <= lane < |lanes| && 0 <= id < |lanes[lane].todos|) {
        return TypeError;
      }
      var todos := lanes[lane].todos;
      lanes := lanes[lane := lanes[lane].(todos := todos[id := todos[id].(task := task)])];
      status := Completed;
    }

    /** `removeTodo({lane, id})`: slices position `id` out of the todos of lane `lane`; a lane outside the list throws. */
    method RemoveTodo(lane: int, id: int) returns (status: Status)
      modifies this
      ensures 0 <= lane < |old(lanes)| ==>
        status == Completed && lanes == old(lanes)[lane := old(lanes)[lane].(todos := SliceOut(old(lanes)[lane].todos, id))]
      ensures !(0 <= lane < |old(lanes)|) ==> status == TypeError && lanes == old(lanes)
    {
      if !(0 <= lane < |lanes|) {
        return TypeError;
      }
      var todos := lanes[lane].todos;
      lanes := lanes[lane := lanes[lane].(todos := SliceOut(todos, id))];
      status := Completed;
    }
  }
}
